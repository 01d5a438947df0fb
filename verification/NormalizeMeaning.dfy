/**
 What the stages of the normalization make of a text, by positions and pieces of it rather than by the
 functions that compute them.
 */
module NormalizeMeaning {
  import opened Text
  import opened LineRules
  import opened Normalize
  import opened MathLaws
  import opened NormalizeLaws

  // ---------------------------------------------------------------- tables

  /** A table block: a bar line, a separator, and the longest run of bar lines after it. */
  predicate IsBlock(rules: Rules, lines: seq<string>, a: nat, b: nat) {
    && a + 2 <= b <= |lines| && rules.bar(lines[a]) && rules.separator(lines[a + 1])
    && (forall k :: a + 2 <= k < b ==> rules.bar(lines[k]))
    && (b < |lines| ==> !rules.bar(lines[b]))
  }

  predicate InBlock(blocks: seq<(nat, nat)>, k: nat) {
    exists i :: 0 <= i < |blocks| && blocks[i].0 <= k < blocks[i].1
  }

  /** A bar line with a separator after it. */
  predicate IsHeader(rules: Rules, lines: seq<string>, k: nat) {
    k + 1 < |lines| && rules.bar(lines[k]) && rules.separator(lines[k + 1])
  }

  /** The blocks of the lines from `from` on: in order, apart, and leaving no header outside. */
  predicate AreBlocks(rules: Rules, lines: seq<string>, from: nat, blocks: seq<(nat, nat)>) {
    && (forall i :: 0 <= i < |blocks| ==> from <= blocks[i].0 && IsBlock(rules, lines, blocks[i].0, blocks[i].1))
    && (forall i, j :: 0 <= i < j < |blocks| ==> blocks[i].1 <= blocks[j].0)
    && (forall k :: from <= k < |lines| && !InBlock(blocks, k) ==> !IsHeader(rules, lines, k))
  }

  predicate Increasing(xs: seq<nat>) { forall i, j :: 0 <= i < j < |xs| ==> xs[i] < xs[j] }

  /** The lines at these positions, in order. */
  function At(lines: seq<string>, places: seq<nat>): seq<string>
    requires forall i :: 0 <= i < |places| ==> places[i] < |lines|
  {
    seq(|places|, i requires 0 <= i < |places| => lines[places[i]])
  }

  /** The kept positions: those from `from` on that are in no block and whose line is not dropped. */
  ghost predicate AreKept(rules: Rules, lines: seq<string>, from: nat, blocks: seq<(nat, nat)>, kept: seq<nat>) {
    && Increasing(kept)
    && forall k: nat :: k in kept <==> from <= k < |lines| && !InBlock(blocks, k) && !rules.dropped(lines[k])
  }

  lemma BlocksCons(block: (nat, nat), blocks: seq<(nat, nat)>, k: nat)
    ensures InBlock([block] + blocks, k) <==> block.0 <= k < block.1 || InBlock(blocks, k)
  {
    var all := [block] + blocks;
    assert all[0] == block;
    assert forall i :: 0 <= i < |blocks| ==> all[i + 1] == blocks[i];
  }

  lemma AtCons(lines: seq<string>, k: nat, places: seq<nat>)
    requires k < |lines| && forall i :: 0 <= i < |places| ==> places[i] < |lines|
    ensures forall i :: 0 <= i < |[k] + places| ==> ([k] + places)[i] < |lines|
    ensures At(lines, [k] + places) == [lines[k]] + At(lines, places)
  {
  }

  lemma BlockThenBlocks(rules: Rules, lines: seq<string>, from: nat, b: nat, blocks: seq<(nat, nat)>)
    requires IsBlock(rules, lines, from, b) && AreBlocks(rules, lines, b, blocks)
    ensures AreBlocks(rules, lines, from, [(from, b)] + blocks)
  {
    var all := [(from, b)] + blocks;
    assert forall i :: 1 <= i < |all| ==> all[i] == blocks[i - 1];
    forall k | from <= k < |lines| && !InBlock(all, k) ensures !IsHeader(rules, lines, k) {
      BlocksCons((from, b), blocks, k);
    }
  }

  lemma BlockThenKept(rules: Rules, lines: seq<string>, from: nat, b: nat, blocks: seq<(nat, nat)>, kept: seq<nat>)
    requires from <= b && AreKept(rules, lines, b, blocks, kept)
    requires forall i :: 0 <= i < |blocks| ==> b <= blocks[i].0
    ensures AreKept(rules, lines, from, [(from, b)] + blocks, kept)
  {
    forall k: nat ensures InBlock([(from, b)] + blocks, k) <==> from <= k < b || InBlock(blocks, k) {
      BlocksCons((from, b), blocks, k);
    }
  }

  /** No header at `from`: its line stays or is dropped by itself. */
  lemma LineFirst(rules: Rules, lines: seq<string>, from: nat, blocks: seq<(nat, nat)>, kept: seq<nat>)
    requires from < |lines| && !IsHeader(rules, lines, from)
    requires AreBlocks(rules, lines, from + 1, blocks) && AreKept(rules, lines, from + 1, blocks, kept)
    ensures AreBlocks(rules, lines, from, blocks)
    ensures AreKept(rules, lines, from, blocks, if rules.dropped(lines[from]) then kept else [from] + kept)
  {
    assert !InBlock(blocks, from);
    var all := [from] + kept;
    assert forall k: nat :: k in all <==> k == from || k in kept;
    forall i, j | 0 <= i < j < |all| ensures all[i] < all[j] {
      assert all[j] == kept[j - 1] && kept[j - 1] in kept;
      assert i > 0 ==> all[i] == kept[i - 1];
    }
  }

  /** Stripping from a position on: exactly the lines outside every block that are not dropped, in order. */
  lemma {:induction false} StrippedFrom(rules: Rules, lines: seq<string>, from: nat)
    returns (blocks: seq<(nat, nat)>, kept: seq<nat>)
    requires from <= |lines|
    ensures AreBlocks(rules, lines, from, blocks) && AreKept(rules, lines, from, blocks, kept)
    ensures forall i :: 0 <= i < |kept| ==> kept[i] < |lines|
    ensures Stripped(rules, lines[from..]) == At(lines, kept)
    decreases |lines| - from
  {
    if from == |lines| {
      blocks, kept := [], [];
    } else {
      StrippedAt(rules, lines, from);
      if IsHeader(rules, lines, from) {
        var b := BlockEnd(rules, lines, from);
        blocks, kept := StrippedFrom(rules, lines, b);
        BlockThenBlocks(rules, lines, from, b, blocks);
        BlockThenKept(rules, lines, from, b, blocks, kept);
        blocks := [(from, b)] + blocks;
      } else {
        blocks, kept := StrippedFrom(rules, lines, from + 1);
        LineFirst(rules, lines, from, blocks, kept);
        if !rules.dropped(lines[from]) {
          AtCons(lines, from, kept);
          kept := [from] + kept;
        }
      }
    }
  }

  lemma {:induction false} AfterBarsMeaning(rules: Rules, lines: seq<string>)
    ensures var n := |lines| - |AfterBars(rules, lines)|;
            (forall k :: 0 <= k < n ==> rules.bar(lines[k])) && (n < |lines| ==> !rules.bar(lines[n]))
  {
    if lines != [] && rules.bar(lines[0]) {
      AfterBarsMeaning(rules, lines[1..]);
      assert forall k :: 1 <= k < |lines| ==> lines[k] == lines[1..][k - 1];
    }
  }

  lemma BarsAfter(rules: Rules, lines: seq<string>, c: nat, tail: seq<string>, n: nat)
    requires c <= |lines| && tail == lines[c..] && n <= |tail|
    requires (forall k :: 0 <= k < n ==> rules.bar(tail[k])) && (n < |tail| ==> !rules.bar(tail[n]))
    ensures (forall k :: c <= k < c + n ==> rules.bar(lines[k])) && (c + n < |lines| ==> !rules.bar(lines[c + n]))
    ensures tail[n..] == lines[c + n..]
  {
    assert forall k :: c <= k < |lines| ==> lines[k] == tail[k - c];
  }

  lemma BlockEnd(rules: Rules, lines: seq<string>, from: nat) returns (b: nat)
    requires IsHeader(rules, lines, from)
    ensures IsBlock(rules, lines, from, b) && AfterBars(rules, lines[from + 2..]) == lines[b..]
  {
    var tail := lines[from + 2..];
    var n := |tail| - |AfterBars(rules, tail)|;
    AfterBarsMeaning(rules, tail);
    BarsAfter(rules, lines, from + 2, tail, n);
    b := from + 2 + n;
  }

  /**
   Block stripping by positions: there are table blocks, apart from each other and leaving no header
   outside them, and the result is the join of exactly the lines that are in no block and not dropped.
   */
  lemma StripMeaning(rules: Rules, s: string) returns (blocks: seq<(nat, nat)>, kept: seq<nat>)
    ensures AreBlocks(rules, Lines(s), 0, blocks) && AreKept(rules, Lines(s), 0, blocks, kept)
    ensures forall i :: 0 <= i < |kept| ==> kept[i] < |Lines(s)|
    ensures StripBlocks(rules, s) == Join(At(Lines(s), kept))
  {
    assert Lines(s)[0..] == Lines(s);
    blocks, kept := StrippedFrom(rules, Lines(s), 0);
  }

  // ------------------------------------------------------------ references

  /** `k` is the first heading line, or the number of lines when there is none. */
  predicate FirstHeading(rules: Rules, lines: seq<string>, k: nat) {
    k <= |lines| && (k < |lines| ==> rules.heading(lines[k])) && forall j :: 0 <= j < k ==> !rules.heading(lines[j])
  }

  lemma {:induction false} KeptBeforeHeading(rules: Rules, lines: seq<string>, k: nat)
    requires FirstHeading(rules, lines, k)
    ensures BeforeReferences(rules, lines) == lines[..k]
    decreases k
  {
    if k > 0 {
      assert forall j :: 0 <= j < |lines[1..]| ==> lines[1..][j] == lines[j + 1];
      KeptBeforeHeading(rules, lines[1..], k - 1);
      assert lines[..k] == [lines[0]] + lines[1..][..k - 1];
    }
  }

  /** Truncation keeps every line before the first heading and nothing else; without one, the text as it is. */
  lemma TruncateMeaning(rules: Rules, s: string, k: nat)
    requires FirstHeading(rules, Lines(s), k)
    ensures TruncateAtReferences(rules, s) == if k == |Lines(s)| then s else Join(Lines(s)[..k])
  {
    KeptBeforeHeading(rules, Lines(s), k);
    JoinLines(s);
    assert Lines(s)[..|Lines(s)|] == Lines(s);
  }

  // ------------------------------------------------------------ blank runs

  function Newlines(n: nat): string { seq(n, _ => '\n') }

  /** How many of `n` newlines survive after `run` of them. */
  function Surviving(n: nat, run: nat): nat
    requires run <= 2
  {
    if run + n <= 2 then n else 2 - run
  }

  lemma CollapseOne(rest: string, run: nat)
    requires run <= 2
    ensures CollapseFrom("\n" + rest, run) ==
            if run < 2 then "\n" + CollapseFrom(rest, run + 1) else CollapseFrom(rest, run)
  {
    assert ("\n" + rest)[1..] == rest;
  }

  lemma NewlinesCons(n: nat, b: string)
    ensures Newlines(n + 1) + b == "\n" + (Newlines(n) + b)
  {
  }

  lemma {:induction false} CollapseRunFrom(n: nat, b: string, run: nat)
    requires run <= 2 && (b == "" || b[0] != '\n')
    ensures CollapseFrom(Newlines(n) + b, run) == Newlines(Surviving(n, run)) + CollapseFrom(b, 0)
    decreases n
  {
    if n == 0 {
      assert Newlines(0) + b == b && Newlines(0) + CollapseFrom(b, 0) == CollapseFrom(b, 0);
    } else {
      var next := if run < 2 then run + 1 else run;
      NewlinesCons(n - 1, b);
      CollapseOne(Newlines(n - 1) + b, run);
      CollapseRunFrom(n - 1, b, next);
      NewlinesCons(Surviving(n - 1, next), CollapseFrom(b, 0));
    }
  }

  lemma {:induction false} CollapseThrough(a: string, rest: string, run: nat)
    requires a != "" && a[|a| - 1] != '\n'
    ensures CollapseFrom(a + rest, run) == CollapseFrom(a, run) + CollapseFrom(rest, 0)
    decreases |a|
  {
    assert (a + rest)[0] == a[0] && (a + rest)[1..] == a[1..] + rest;
    if |a| == 1 {
      assert a[1..] == "" && "" + rest == rest;
    } else {
      CollapseThrough(a[1..], rest, if a[0] != '\n' then 0 else if run < 2 then run + 1 else run);
    }
  }

  /**
   A run of newlines between two texts becomes as many newlines, but never more than two; the texts collapse by
   themselves.
   */
  lemma CollapseMeaning(a: string, n: nat, b: string)
    requires (a == "" || a[|a| - 1] != '\n') && (b == "" || b[0] != '\n')
    ensures CollapseBlankRuns(a + Newlines(n) + b) ==
            CollapseBlankRuns(a) + Newlines(if n <= 2 then n else 2) + CollapseBlankRuns(b)
  {
    CollapseRunFrom(n, b, 0);
    assert Surviving(n, 0) == if n <= 2 then n else 2;
    if a == "" {
      assert a + Newlines(n) + b == Newlines(n) + b;
    } else {
      assert a + Newlines(n) + b == a + (Newlines(n) + b);
      CollapseThrough(a, Newlines(n) + b, 0);
    }
  }

  /** Text without a newline collapses to itself. */
  lemma CollapsePlain(a: string)
    requires '\n' !in a
    ensures CollapseBlankRuns(a) == a
  {
    CollapseFixed(a);
  }

  // ------------------------------------------------------ final newlines

  lemma NewlinesSnoc(r: string, n: nat)
    ensures r + Newlines(n) + "\n" == r + Newlines(n + 1)
  {
    assert Newlines(n) + "\n" == Newlines(n + 1);
  }

  /** Trimming takes every newline off the end and nothing else. */
  lemma {:induction false} TrimNewlinesMeaning(s: string) returns (r: string, n: nat)
    ensures r == TrimNewlines(s) && s == r + Newlines(n) && (r == "" || r[|r| - 1] != '\n')
    decreases |s|
  {
    r, n := s, 0;
    if s != "" && s[|s| - 1] == '\n' {
      r, n := TrimNewlinesMeaning(s[..|s| - 1]);
      NewlinesSnoc(r, n);
      assert s == s[..|s| - 1] + "\n";
      n := n + 1;
    }
  }

  // ------------------------------------------------------------------ math

  /** The first display pair, `\[` to the nearest `\]` with something between, turns to `$$` on both sides. */
  lemma DisplayMeaning(s: string) returns (before: string, inner: string, after: string)
    ensures !HasPair(s, "\\[", "\\]") ==> RewriteDisplay(s) == s
    ensures HasPair(s, "\\[", "\\]") ==>
              && s == before + "\\[" + inner + "\\]" + after && inner != ""
              && (forall i, j :: IsPair(s, "\\[", "\\]", i, j) ==>
                   |before| <= i && (|before| == i ==> |before| + 2 + |inner| <= j))
              && RewriteDisplay(s) == before + "$$" + inner + "$$" + RewriteDisplay(after)
  {
    var i, j, tail;
    i, j, before, inner, after, tail := RewritesLeftmostNearest(s, "\\[", "\\]", "$$");
  }

  /** The same for inline pairs, `\(` to `\)`, with a single `$`. */
  lemma InlineMeaning(s: string) returns (before: string, inner: string, after: string)
    ensures !HasPair(s, "\\(", "\\)") ==> RewriteInline(s) == s
    ensures HasPair(s, "\\(", "\\)") ==>
              && s == before + "\\(" + inner + "\\)" + after && inner != ""
              && (forall i, j :: IsPair(s, "\\(", "\\)", i, j) ==>
                   |before| <= i && (|before| == i ==> |before| + 2 + |inner| <= j))
              && RewriteInline(s) == before + "$" + inner + "$" + RewriteInline(after)
  {
    var i, j, tail;
    i, j, before, inner, after, tail := RewritesLeftmostNearest(s, "\\(", "\\)", "$");
  }
}
