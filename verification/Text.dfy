/** Lines, words, trimming and searching, as Go's strings package defines them on code points. */
module Text {

  /** unicode.IsSpace. */
  predicate IsSpace(c: char) {
    '\t' <= c <= '\r' || c == ' ' || c == '\U{85}' || c == '\U{A0}' || c == '\U{1680}' ||
    '\U{2000}' <= c <= '\U{200A}' || c == '\U{2028}' || c == '\U{2029}' || c == '\U{202F}' ||
    c == '\U{205F}' || c == '\U{3000}'
  }

  function TrimLeft(s: string): (r: string)
    ensures |r| <= |s| && r == s[|s| - |r|..]
    ensures r != "" ==> !IsSpace(r[0])
  {
    if s != "" && IsSpace(s[0]) then TrimLeft(s[1..]) else s
  }

  function TrimRight(s: string): (r: string)
    ensures |r| <= |s| && r == s[..|r|]
    ensures r != "" ==> !IsSpace(r[|r| - 1])
  {
    if s != "" && IsSpace(s[|s| - 1]) then TrimRight(s[..|s| - 1]) else s
  }

  function TrimSpace(s: string): string { TrimRight(TrimLeft(s)) }

  /** Nothing but space, so that trimming leaves nothing. */
  predicate Blank(s: string) { forall k :: 0 <= k < |s| ==> IsSpace(s[k]) }

  lemma {:induction false} LeftBlank(s: string)
    ensures TrimLeft(s) == "" <==> Blank(s)
  {
    if s != "" && IsSpace(s[0]) {
      LeftBlank(s[1..]);
      assert forall k :: 1 <= k < |s| ==> s[k] == s[1..][k - 1];
    }
  }

  lemma BlankIsTrimmed(s: string)
    ensures TrimSpace(s) == "" <==> Blank(s)
  {
    LeftBlank(s);
    var t := TrimLeft(s);
    if t != "" { RightKeeps(t); }
  }

  lemma {:induction false} RightKeeps(s: string)
    requires s != "" && !IsSpace(s[0])
    ensures TrimRight(s) != ""
  {
    if IsSpace(s[|s| - 1]) { RightKeeps(s[..|s| - 1]); }
  }

  lemma {:induction false} LeftPart(s: string)
    ensures var r := TrimLeft(s); Blank(s[..|s| - |r|])
  {
    if s != "" && IsSpace(s[0]) {
      LeftPart(s[1..]);
      var n := |s| - |TrimLeft(s)|;
      assert forall k :: 1 <= k < n ==> s[..n][k] == s[1..][..n - 1][k - 1];
    }
  }

  lemma {:induction false} RightPart(s: string)
    ensures var r := TrimRight(s); Blank(s[|r|..])
  {
    if s != "" && IsSpace(s[|s| - 1]) {
      var t := s[..|s| - 1];
      RightPart(t);
      assert s[|TrimRight(s)|..] == t[|TrimRight(t)|..] + [s[|s| - 1]];
    }
  }

  /** Trimming takes space off both ends, all of it, and nothing else. */
  lemma TrimMeaning(s: string) returns (left: string, t: string, right: string)
    ensures t == TrimSpace(s) && s == left + t + right && Blank(left) && Blank(right)
    ensures t == "" || (!IsSpace(t[0]) && !IsSpace(t[|t| - 1]))
  {
    var l := TrimLeft(s);
    t := TrimRight(l);
    LeftPart(s);
    RightPart(l);
    left, right := s[..|s| - |l|], l[|t|..];
    ThreeParts(s, l, left, t, right);
  }

  lemma ThreeParts(s: string, l: string, left: string, t: string, right: string)
    requires |l| <= |s| && l == s[|s| - |l|..] && left == s[..|s| - |l|]
    requires |t| <= |l| && t == l[..|t|] && right == l[|t|..]
    ensures s == left + t + right && (t != "" ==> t[0] == l[0])
  {
    assert s == left + l && l == t + right;
  }

  predicate HasPrefix(s: string, p: string) { p <= s }

  /** The first position at or after `from` where `p` occurs, or -1. */
  function Index(s: string, p: string, from: nat): (i: int)
    ensures i == -1 || (from <= i <= |s| - |p| && p <= s[i..])
    ensures forall k {:trigger s[k..]} :: from <= k <= |s| && p <= s[k..] ==> i != -1 && i <= k
    decreases |s| - from
  {
    if from > |s| then -1
    else if p <= s[from..] then from
    else Index(s, p, from + 1)
  }

  // ---------------------------------------------------------------- lines

  /** strings.Split on a single character: one more piece than there are separators. */
  function Split(s: string, sep: char): (pieces: seq<string>)
    ensures pieces != []
    ensures forall k :: 0 <= k < |pieces| ==> sep !in pieces[k]
  {
    if s == "" then [""]
    else
      var rest := Split(s[1..], sep);
      if s[0] == sep then [""] + rest else [[s[0]] + rest[0]] + rest[1..]
  }

  function Lines(s: string): (lines: seq<string>)
    ensures lines != []
    ensures forall k :: 0 <= k < |lines| ==> '\n' !in lines[k]
  {
    Split(s, '\n')
  }

  /** strings.Join with a newline. */
  function Join(lines: seq<string>): string {
    if lines == [] then ""
    else if |lines| == 1 then lines[0]
    else lines[0] + "\n" + Join(lines[1..])
  }

  lemma {:induction false} JoinLines(s: string)
    ensures Join(Lines(s)) == s
  {
    if s != "" {
      JoinLines(s[1..]);
      var rest := Lines(s[1..]);
      if s[0] == '\n' {
        assert ([""] + rest)[1..] == rest;
        assert Join(Lines(s)) == "" + "\n" + Join(rest);
      } else if |rest| > 1 {
        assert Lines(s)[1..] == rest[1..];
        assert Join(Lines(s)) == ([s[0]] + rest[0]) + "\n" + Join(rest[1..]);
      }
      assert s == [s[0]] + s[1..];
    }
  }

  lemma {:induction false} SplitPrefix(line: string, s: string)
    requires '\n' !in line
    ensures Lines(line + s) == [line + Lines(s)[0]] + Lines(s)[1..]
  {
    if line == "" {
      assert line + s == s && line + Lines(s)[0] == Lines(s)[0];
    } else {
      assert (line + s)[1..] == line[1..] + s;
      SplitPrefix(line[1..], s);
      assert line == [line[0]] + line[1..];
      assert [line[0]] + (line[1..] + Lines(s)[0]) == line + Lines(s)[0];
    }
  }

  lemma {:induction false} LinesJoin(lines: seq<string>)
    requires lines != [] && forall k :: 0 <= k < |lines| ==> '\n' !in lines[k]
    ensures Lines(Join(lines)) == lines
  {
    if |lines| == 1 {
      SplitPrefix(lines[0], "");
      assert lines[0] + "" == lines[0];
    } else {
      var rest := "\n" + Join(lines[1..]);
      LinesJoin(lines[1..]);
      assert rest[1..] == Join(lines[1..]);
      assert Lines(rest) == [""] + lines[1..];
      SplitPrefix(lines[0], rest);
      assert Join(lines) == lines[0] + rest;
      assert lines[0] + "" == lines[0];
    }
  }

  // ---------------------------------------------------------------- words

  /** strings.Fields: the maximal runs of non-space characters. */
  function Fields(s: string): seq<string> {
    FieldsFrom(s, "")
  }

  function FieldsFrom(s: string, word: string): seq<string>
    decreases |s|
  {
    if s == "" then (if word == "" then [] else [word])
    else if IsSpace(s[0]) then (if word == "" then [] else [word]) + FieldsFrom(s[1..], "")
    else FieldsFrom(s[1..], word + [s[0]])
  }

  function WordCount(s: string): nat { |Fields(s)| }

  /** The words that begin in `s`, given whether the text before it ends inside a word. */
  function Starts(s: string, inWord: bool): nat
    decreases |s|
  {
    if s == "" then 0
    else if IsSpace(s[0]) then Starts(s[1..], false)
    else (if inWord then 0 else 1) + Starts(s[1..], true)
  }

  predicate EndsInWord(s: string, inWord: bool) {
    if s == "" then inWord else !IsSpace(s[|s| - 1])
  }

  lemma {:induction false} FieldsAreStarts(s: string, word: string)
    ensures |FieldsFrom(s, word)| == (if word == "" then 0 else 1) + Starts(s, word != "")
    decreases |s|
  {
    if s != "" {
      if IsSpace(s[0]) {
        FieldsAreStarts(s[1..], "");
      } else {
        FieldsAreStarts(s[1..], word + [s[0]]);
      }
    }
  }

  lemma {:induction false} StartsAppend(a: string, b: string, inWord: bool)
    ensures Starts(a + b, inWord) == Starts(a, inWord) + Starts(b, EndsInWord(a, inWord))
    ensures EndsInWord(a + b, inWord) == EndsInWord(b, EndsInWord(a, inWord))
    decreases |a|
  {
    if a == "" {
      assert a + b == b;
    } else {
      assert (a + b)[1..] == a[1..] + b;
      StartsAppend(a[1..], b, !IsSpace(a[0]));
    }
  }

  lemma {:induction false} StartsToken(token: string, inWord: bool)
    requires token != "" && forall k :: 0 <= k < |token| ==> !IsSpace(token[k])
    ensures Starts(token, inWord) == if inWord then 0 else 1
    ensures EndsInWord(token, inWord)
    decreases |token|
  {
    if |token| > 1 {
      StartsToken(token[1..], true);
    }
  }
}
