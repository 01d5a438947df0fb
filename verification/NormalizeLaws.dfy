/** Fixed points and word counts of the whole normalization, for any line rules. */
module NormalizeLaws {
  import opened Text
  import opened LineRules
  import opened Normalize
  import opened MathLaws

  // ---------------------------------------------------- what a clean text is

  predicate NoHeading(rules: Rules, lines: seq<string>) { forall k :: 0 <= k < |lines| ==> !rules.heading(lines[k]) }

  predicate NoDropped(rules: Rules, lines: seq<string>) { forall k :: 0 <= k < |lines| ==> !rules.dropped(lines[k]) }

  predicate NoTable(rules: Rules, lines: seq<string>) {
    forall k :: 0 < k < |lines| ==> !(rules.bar(lines[k - 1]) && rules.separator(lines[k]))
  }

  predicate BlankRunAt(s: string, k: nat) {
    k + 3 <= |s| && s[k] == '\n' && s[k + 1] == '\n' && s[k + 2] == '\n'
  }

  predicate NoBlankRun(s: string) { forall k :: 0 <= k < |s| ==> !BlankRunAt(s, k) }

  predicate NoFinalNewline(s: string) { s == "" || s[|s| - 1] != '\n' }

  ghost predicate NoMath(s: string) {
    !HasPair(s, DISPLAY_OPEN, DISPLAY_CLOSE) && !HasPair(s, INLINE_OPEN, INLINE_CLOSE)
  }

  ghost predicate Clean(rules: Rules, s: string) {
    && NoMath(s) && NoHeading(rules, Lines(s)) && NoTable(rules, Lines(s)) && NoDropped(rules, Lines(s))
    && NoBlankRun(s) && NoFinalNewline(s)
  }

  predicate PlainEmptyLine(rules: Rules) { !rules.heading("") && !rules.dropped("") }

  // -------------------------------------------------------------- lengths

  function Weight(lines: seq<string>): nat { if lines == [] then 0 else |lines[0]| + 1 + Weight(lines[1..]) }

  lemma {:induction false} JoinWeight(lines: seq<string>)
    requires lines != []
    ensures |Join(lines)| + 1 == Weight(lines)
  {
    if |lines| > 1 {
      JoinWeight(lines[1..]);
    } else {
      assert lines[1..] == [];
    }
  }

  lemma {:induction false} BeforeReferencesShrinks(rules: Rules, lines: seq<string>)
    ensures Weight(BeforeReferences(rules, lines)) <= Weight(lines)
    ensures Weight(BeforeReferences(rules, lines)) == Weight(lines) ==> BeforeReferences(rules, lines) == lines
    ensures BeforeReferences(rules, lines) == lines <==> NoHeading(rules, lines)
    ensures BeforeReferences(rules, lines) <= lines && NoHeading(rules, BeforeReferences(rules, lines))
  {
    if lines != [] && !rules.heading(lines[0]) {
      BeforeReferencesShrinks(rules, lines[1..]);
      assert lines == [lines[0]] + lines[1..];
      assert NoHeading(rules, lines) <==> NoHeading(rules, lines[1..]) by {
        assert forall k :: 0 < k < |lines| ==> lines[k] == lines[1..][k - 1];
      }
    }
  }

  lemma {:induction false} AfterBarsShrinks(rules: Rules, lines: seq<string>)
    ensures Weight(AfterBars(rules, lines)) <= Weight(lines)
  {
    if lines != [] && rules.bar(lines[0]) {
      AfterBarsShrinks(rules, lines[1..]);
    }
  }

  lemma NoTableStep(rules: Rules, lines: seq<string>)
    requires lines != []
    ensures NoTable(rules, lines) <==> !IsTableStart(rules, lines) && NoTable(rules, lines[1..])
    ensures NoDropped(rules, lines) <==> !rules.dropped(lines[0]) && NoDropped(rules, lines[1..])
  {
    var rest := lines[1..];
    assert forall k :: 0 < k < |lines| ==> lines[k] == rest[k - 1];
    if !IsTableStart(rules, lines) && NoTable(rules, rest) {
      forall k | 0 < k < |lines| ensures !(rules.bar(lines[k - 1]) && rules.separator(lines[k])) {
        if k > 1 {
          assert rest[k - 1 - 1] == lines[k - 1] && rest[k - 1] == lines[k];
        }
      }
    }
    if NoTable(rules, lines) {
      forall k | 0 < k < |rest| ensures !(rules.bar(rest[k - 1]) && rules.separator(rest[k])) {
        assert lines[k + 1 - 1] == rest[k - 1] && lines[k + 1] == rest[k];
      }
    }
  }

  lemma {:induction false} StrippedShrinks(rules: Rules, lines: seq<string>)
    ensures Weight(Stripped(rules, lines)) <= Weight(lines)
    ensures Weight(Stripped(rules, lines)) == Weight(lines) ==> Stripped(rules, lines) == lines
    ensures Stripped(rules, lines) == lines <==> NoTable(rules, lines) && NoDropped(rules, lines)
    ensures forall k :: 0 <= k < |Stripped(rules, lines)| ==>
              Stripped(rules, lines)[k] in lines && !rules.dropped(Stripped(rules, lines)[k])
    decreases |lines|
  {
    if lines != [] {
      NoTableStep(rules, lines);
      if IsTableStart(rules, lines) {
        assert lines[1..][1..] == lines[2..];
        AfterBarsShrinks(rules, lines[2..]);
        StrippedShrinks(rules, AfterBars(rules, lines[2..]));
      } else {
        StrippedShrinks(rules, lines[1..]);
        assert lines == [lines[0]] + lines[1..];
      }
    }
  }

  // ----------------------------------------------------------- blank runs

  predicate ShortRuns(s: string, run: nat)
    decreases |s|
  {
    s == "" || if s[0] == '\n' then run < 2 && ShortRuns(s[1..], run + 1) else ShortRuns(s[1..], 0)
  }

  lemma BlankRunStep(s: string)
    requires s != ""
    ensures NoBlankRun(s) <==> NoBlankRun(s[1..]) && !BlankRunAt(s, 0)
  {
    var t := s[1..];
    assert forall k: nat :: BlankRunAt(t, k) <==> BlankRunAt(s, k + 1);
    assert forall k: nat :: k > 0 && BlankRunAt(s, k) ==> BlankRunAt(t, k - 1);
  }

  lemma {:induction false} ShortRunsIff(s: string, run: nat)
    requires run <= 2
    ensures ShortRuns(s, run) <==>
            NoBlankRun(s) && (run == 2 ==> !("\n" <= s)) && (run == 1 ==> !("\n\n" <= s))
    decreases |s|
  {
    if s != "" {
      BlankRunStep(s);
      if s[0] != '\n' {
        ShortRunsIff(s[1..], 0);
      } else if run < 2 {
        ShortRunsIff(s[1..], run + 1);
      }
    }
  }

  lemma {:induction false} CollapseShrinks(s: string, run: nat)
    requires run <= 2
    ensures |CollapseFrom(s, run)| <= |s|
    ensures |CollapseFrom(s, run)| == |s| ==> CollapseFrom(s, run) == s
    ensures ShortRuns(s, run) ==> CollapseFrom(s, run) == s
    decreases |s|
  {
    if s != "" {
      assert s == [s[0]] + s[1..];
      CollapseShrinks(s[1..], if s[0] != '\n' then 0 else if run < 2 then run + 1 else run);
    }
  }

  lemma {:induction false} CollapseShortens(s: string, run: nat)
    requires run <= 2
    ensures ShortRuns(CollapseFrom(s, run), run)
    decreases |s|
  {
    if s != "" {
      CollapseShortens(s[1..], if s[0] != '\n' then 0 else if run < 2 then run + 1 else run);
    }
  }

  // ---------------------------------------------------------- fixed points

  lemma TruncateFixed(rules: Rules, s: string)
    requires PlainEmptyLine(rules)
    ensures |TruncateAtReferences(rules, s)| <= |s|
    ensures |TruncateAtReferences(rules, s)| == |s| ==> TruncateAtReferences(rules, s) == s
    ensures TruncateAtReferences(rules, s) == s <==> NoHeading(rules, Lines(s))
  {
    var lines := Lines(s);
    JoinLines(s);
    JoinWeight(lines);
    BeforeReferencesShrinks(rules, lines);
    var kept := BeforeReferences(rules, lines);
    if kept != [] { JoinWeight(kept); }
  }

  lemma StripFixed(rules: Rules, s: string)
    requires PlainEmptyLine(rules)
    ensures |StripBlocks(rules, s)| <= |s|
    ensures |StripBlocks(rules, s)| == |s| ==> StripBlocks(rules, s) == s
    ensures StripBlocks(rules, s) == s <==> NoTable(rules, Lines(s)) && NoDropped(rules, Lines(s))
  {
    var lines := Lines(s);
    JoinLines(s);
    JoinWeight(lines);
    StrippedShrinks(rules, lines);
    var kept := Stripped(rules, lines);
    if kept != [] { JoinWeight(kept); }
  }

  lemma CollapseFixed(s: string)
    ensures |CollapseBlankRuns(s)| <= |s|
    ensures |CollapseBlankRuns(s)| == |s| ==> CollapseBlankRuns(s) == s
    ensures CollapseBlankRuns(s) == s <==> NoBlankRun(s)
    ensures NoBlankRun(CollapseBlankRuns(s))
  {
    CollapseShrinks(s, 0);
    CollapseShortens(s, 0);
    ShortRunsIff(s, 0);
    ShortRunsIff(CollapseBlankRuns(s), 0);
  }

  /** A text is its own normalized body exactly when it is clean. */
  lemma FixedPoint(rules: Rules, s: string)
    requires PlainEmptyLine(rules)
    ensures BodyBy(rules, s) == s <==> Clean(rules, s)
  {
    var s1 := RewriteDisplay(s);
    var s2 := RewriteInline(s1);
    var s3 := TruncateAtReferences(rules, s2);
    var s4 := StripBlocks(rules, s3);
    var s5 := CollapseBlankRuns(s4);
    RewriteFixed(s, DISPLAY_OPEN, DISPLAY_CLOSE, "$$");
    RewriteFixed(s1, INLINE_OPEN, INLINE_CLOSE, "$");
    TruncateFixed(rules, s2);
    StripFixed(rules, s3);
    CollapseFixed(s4);
  }
}
