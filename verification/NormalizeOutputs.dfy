/** What every normalized body satisfies, when normalizing again changes it, and its word count. */
module NormalizeOutputs {
  import opened Text
  import opened LineRules
  import opened Normalize
  import opened MathLaws
  import opened NormalizeLaws

  // ------------------------------------------------ lines that survive

  function Visible(lines: seq<string>): seq<string> {
    if lines == [] then [] else (if lines[0] == "" then [] else [lines[0]]) + Visible(lines[1..])
  }

  lemma {:induction false} VisibleMembers(lines: seq<string>, line: string)
    ensures line in Visible(lines) <==> line in lines && line != ""
  {
    if lines != [] {
      VisibleMembers(lines[1..], line);
      assert line in lines <==> line == lines[0] || line in lines[1..];
    }
  }

  lemma {:induction false} VisibleAppend(a: seq<string>, b: seq<string>)
    ensures Visible(a + b) == Visible(a) + Visible(b)
  {
    if a == [] {
      assert a + b == b;
    } else {
      assert (a + b)[1..] == a[1..] + b;
      VisibleAppend(a[1..], b);
    }
  }

  /** Collapsing blank runs removes empty lines only. */
  lemma {:induction false} CollapseKeepsLines(s: string, run: nat)
    requires run <= 2
    ensures Visible(Lines(CollapseFrom(s, run))) == Visible(Lines(s))
    ensures run < 2 || s == "" || s[0] != '\n' ==>
              var after, before := Lines(CollapseFrom(s, run)), Lines(s);
              after[0] == before[0] && Visible(after[1..]) == Visible(before[1..])
    decreases |s|
  {
    if s != "" {
      var t := s[1..];
      var run' := if s[0] != '\n' then 0 else if run < 2 then run + 1 else run;
      CollapseKeepsLines(t, run');
      if s[0] == '\n' {
        assert Lines(s) == [""] + Lines(t) && Lines(s)[1..] == Lines(t);
        if run < 2 {
          var c := CollapseFrom(t, run');
          assert ("\n" + c)[1..] == c;
          assert Lines("\n" + c) == [""] + Lines(c) && Lines("\n" + c)[1..] == Lines(c);
        }
      } else {
        var c := CollapseFrom(t, run');
        CharLine(s[0], t);
        CharLine(s[0], c);
        assert s == [s[0]] + t;
      }
    }
  }

  lemma CharLine(c: char, s: string)
    requires c != '\n'
    ensures Lines([c] + s) == [[c] + Lines(s)[0]] + Lines(s)[1..]
    ensures Visible(Lines([c] + s)) == [[c] + Lines(s)[0]] + Visible(Lines(s)[1..])
  {
    assert ([c] + s)[1..] == s;
    assert Lines([c] + s)[1..] == Lines(s)[1..];
  }

  lemma {:induction false} FinalNewline(s: string)
    ensures Lines(s + "\n") == Lines(s) + [""]
    decreases |s|
  {
    if s == "" {
      assert s + "\n" == "\n" && "\n"[1..] == "";
    } else {
      assert (s + "\n")[1..] == s[1..] + "\n";
      FinalNewline(s[1..]);
    }
  }

  lemma {:induction false} TrimKeepsLines(s: string)
    ensures Visible(Lines(TrimNewlines(s))) == Visible(Lines(s))
    decreases |s|
  {
    if s != "" && s[|s| - 1] == '\n' {
      var t := s[..|s| - 1];
      TrimKeepsLines(t);
      assert s == t + "\n";
      FinalNewline(t);
      VisibleAppend(Lines(t), [""]);
    }
  }

  lemma TrimKeepsRuns(s: string)
    requires NoBlankRun(s)
    ensures NoBlankRun(TrimNewlines(s))
  {
    var r := TrimNewlines(s);
    assert forall k: nat :: BlankRunAt(r, k) ==> BlankRunAt(s, k);
  }

  /** Every visible line of a body is a line of the text before stripping that stripping kept. */
  lemma BodyLines(rules: Rules, markdown: string, line: string)
    requires PlainEmptyLine(rules) && line in Lines(BodyBy(rules, markdown))
    ensures !rules.heading(line) && !rules.dropped(line)
  {
    var s2 := RewriteInline(RewriteDisplay(markdown));
    var s3 := TruncateAtReferences(rules, s2);
    var s4 := StripBlocks(rules, s3);
    TrimKeepsLines(CollapseBlankRuns(s4));
    CollapseKeepsLines(s4, 0);
    VisibleMembers(Lines(BodyBy(rules, markdown)), line);
    VisibleMembers(Lines(s4), line);
    if line != "" {
      var kept, stripped := BeforeReferences(rules, Lines(s2)), Stripped(rules, Lines(s3));
      BeforeReferencesShrinks(rules, Lines(s2));
      StrippedShrinks(rules, Lines(s3));
      assert forall k :: 0 <= k < |stripped| ==> stripped[k] in Lines(s3);
      if stripped != [] { LinesJoin(stripped); }
      assert line in stripped;
      if kept != [] { LinesJoin(kept); }
      assert line in kept;
    }
  }

  /** Every normalized body is clean but for delimiter pairs and tables that the stages themselves brought together. */
  lemma OutputClean(rules: Rules, markdown: string)
    requires PlainEmptyLine(rules)
    ensures var b := BodyBy(rules, markdown);
            && NoHeading(rules, Lines(b)) && NoDropped(rules, Lines(b)) && NoBlankRun(b) && NoFinalNewline(b)
            && (BodyBy(rules, b) == b <==> NoMath(b) && NoTable(rules, Lines(b)))
  {
    var b := BodyBy(rules, markdown);
    forall k | 0 <= k < |Lines(b)| ensures !rules.heading(Lines(b)[k]) && !rules.dropped(Lines(b)[k]) {
      BodyLines(rules, markdown, Lines(b)[k]);
    }
    var s4 := StripBlocks(rules, TruncateAtReferences(rules, RewriteInline(RewriteDisplay(markdown))));
    CollapseFixed(s4);
    TrimKeepsRuns(CollapseBlankRuns(s4));
    FixedPoint(rules, b);
  }

  // ---------------------------------------------------------------- words

  function LineWords(lines: seq<string>): nat {
    if lines == [] then 0 else Starts(lines[0], false) + LineWords(lines[1..])
  }

  lemma {:induction false} JoinWords(lines: seq<string>)
    ensures Starts(Join(lines), false) == LineWords(lines)
  {
    if |lines| == 1 {
      assert lines[1..] == [];
    } else if |lines| > 1 {
      var rest := Join(lines[1..]);
      JoinWords(lines[1..]);
      StartsAppend(lines[0] + "\n", rest, false);
      StartsAppend(lines[0], "\n", false);
      assert (lines[0] + "\n")[|lines[0]|] == '\n';
    }
  }

  lemma {:induction false} BeforeReferencesWords(rules: Rules, lines: seq<string>)
    ensures LineWords(BeforeReferences(rules, lines)) <= LineWords(lines)
  {
    if lines != [] && !rules.heading(lines[0]) {
      BeforeReferencesWords(rules, lines[1..]);
    }
  }

  lemma {:induction false} AfterBarsWords(rules: Rules, lines: seq<string>)
    ensures LineWords(AfterBars(rules, lines)) <= LineWords(lines)
  {
    if lines != [] && rules.bar(lines[0]) {
      AfterBarsWords(rules, lines[1..]);
    }
  }

  lemma {:induction false} StrippedWords(rules: Rules, lines: seq<string>)
    ensures LineWords(Stripped(rules, lines)) <= LineWords(lines)
    decreases |lines|
  {
    if lines == [] {
    } else if IsTableStart(rules, lines) {
      assert lines[1..][1..] == lines[2..];
      AfterBarsWords(rules, lines[2..]);
      StrippedWords(rules, AfterBars(rules, lines[2..]));
    } else {
      StrippedWords(rules, lines[1..]);
    }
  }

  lemma {:induction false} CollapseWords(s: string, run: nat, w: bool)
    requires run > 0 ==> !w
    ensures Starts(CollapseFrom(s, run), w) == Starts(s, w)
    decreases |s|
  {
    if s != "" {
      if s[0] != '\n' {
        CollapseWords(s[1..], 0, !IsSpace(s[0]));
        assert ([s[0]] + CollapseFrom(s[1..], 0))[1..] == CollapseFrom(s[1..], 0);
      } else {
        CollapseWords(s[1..], if run < 2 then run + 1 else run, false);
        assert run < 2 ==> ("\n" + CollapseFrom(s[1..], run + 1))[1..] == CollapseFrom(s[1..], run + 1);
      }
    }
  }

  lemma {:induction false} TrimWords(s: string)
    ensures Starts(TrimNewlines(s), false) == Starts(s, false)
    decreases |s|
  {
    if s != "" && s[|s| - 1] == '\n' {
      TrimWords(s[..|s| - 1]);
      assert s == s[..|s| - 1] + "\n";
      StartsAppend(s[..|s| - 1], "\n", false);
    }
  }

  /** Normalizing never adds a word; the math stage and the newline stages keep the count exactly. */
  lemma WordsNeverGrow(rules: Rules, markdown: string)
    ensures WordCount(BodyBy(rules, markdown)) <= WordCount(markdown)
    ensures WordCount(RewriteInline(RewriteDisplay(markdown))) == WordCount(markdown)
  {
    var s1 := RewriteDisplay(markdown);
    var s2 := RewriteInline(s1);
    var s3 := TruncateAtReferences(rules, s2);
    var s4 := StripBlocks(rules, s3);
    var s5 := CollapseBlankRuns(s4);
    FieldsAreStarts(markdown, "");
    FieldsAreStarts(s2, "");
    FieldsAreStarts(TrimNewlines(s5), "");
    RewriteKeepsWords(markdown, DISPLAY_OPEN, DISPLAY_CLOSE, "$$", false);
    RewriteKeepsWords(s1, INLINE_OPEN, INLINE_CLOSE, "$", false);
    JoinLines(s2);
    JoinWords(Lines(s2));
    JoinWords(BeforeReferences(rules, Lines(s2)));
    BeforeReferencesWords(rules, Lines(s2));
    JoinLines(s3);
    JoinWords(Lines(s3));
    JoinWords(Stripped(rules, Lines(s3)));
    StrippedWords(rules, Lines(s3));
    CollapseWords(s4, 0, false);
    TrimWords(s5);
  }
}
