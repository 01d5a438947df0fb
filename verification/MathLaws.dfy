/** The math rewriting as its regular expressions define it, its fixed points, and its words. */
module MathLaws {
  import opened Text
  import opened Normalize

  /** An opening delimiter, at least one character, and a closing delimiter. */
  ghost predicate IsPair(s: string, open: string, close: string, i: int, j: int) {
    0 <= i && i + 3 <= j <= |s| && open <= s[i..] && close <= s[j..]
  }

  ghost predicate HasPair(s: string, open: string, close: string) {
    exists i, j :: IsPair(s, open, close, i, j)
  }

  predicate IsDelimiter(d: string) { |d| == 2 && !IsSpace(d[0]) && !IsSpace(d[1]) }

  predicate IsMark(mark: string, open: string) {
    1 <= |mark| <= 2 && open != "" && mark[0] != open[0] && forall k :: 0 <= k < |mark| ==> !IsSpace(mark[k])
  }

  /** The first opening delimiter with a close, and its nearest close, as the scan finds them. */
  lemma FirstPair(s: string, open: string, close: string) returns (i: int, j: int)
    requires |open| == |close| == 2
    ensures i == Index(s, open, 0) && j == if i < 0 then -1 else Index(s, close, i + 3)
    ensures 0 <= j ==> 0 <= i && IsPair(s, open, close, i, j) && j + 2 <= |s|
    ensures forall i', j' :: IsPair(s, open, close, i', j') ==> 0 <= j && i <= i' && (i == i' ==> j <= j')
  {
    i := Index(s, open, 0);
    j := if i < 0 then -1 else Index(s, close, i + 3);
    forall i', j' | IsPair(s, open, close, i', j') ensures 0 <= i <= i' && 0 <= j && (i == i' ==> j <= j') {
      assert open <= s[i'..] && close <= s[j'..];
    }
  }

  /** A pair needs both characters of its opening delimiter and five characters of text. */
  lemma PairNeeds(s: string, open: string, close: string)
    requires |open| == |close| == 2 && HasPair(s, open, close)
    ensures open[0] in s && open[1] in s && |s| >= 5
  {
    var i, j :| IsPair(s, open, close, i, j);
    assert s[i] == s[i..][0] && s[i + 1] == s[i..][1];
  }

  lemma CutPair(s: string, open: string, close: string, i: nat, j: nat)
    requires |open| == |close| == 2 && IsPair(s, open, close, i, j)
    ensures j + 2 <= |s| && s == s[..i] + open + s[i + 2..j] + close + s[j + 2..]
  {
    assert s[i..][..2] == open && s[j..][..2] == close;
    assert s[i..i + 2] == open && s[j..j + 2] == close;
  }

  /** The rewritten pair is the leftmost, and its close the nearest; without a pair nothing changes. */
  lemma RewritesLeftmostNearest(s: string, open: string, close: string, mark: string)
    returns (i: int, j: int, before: string, inner: string, after: string, tail: string)
    requires |open| == |close| == 2
    ensures !HasPair(s, open, close) ==> RewriteMath(s, open, close, mark) == s
    ensures HasPair(s, open, close) ==>
              && IsPair(s, open, close, i, j)
              && (forall i', j' :: IsPair(s, open, close, i', j') ==> i <= i' && (i == i' ==> j <= j'))
              && |before| == i && |inner| == j - i - 2
              && s == before + open + inner + close + after
              && RewriteMath(s, open, close, mark) == before + mark + inner + mark + tail
              && tail == RewriteMath(after, open, close, mark)
  {
    i, j := FirstPair(s, open, close);
    if 0 <= j {
      CutPair(s, open, close, i, j);
      before, inner, after := s[..i], s[i + 2..j], s[j + 2..];
      tail := RewriteMath(after, open, close, mark);
      assert HasPair(s, open, close);
    } else {
      before, inner, after, tail := "", "", "", "";
    }
  }

  lemma MarkShows(before: string, open: string, inner: string, close: string, after: string, mark: string, tail: string)
    requires |open| == |close| == 2 && IsMark(mark, open) && |tail| <= |after| && (|mark| == 2 ==> |tail| == |after|)
    ensures var s, r := before + open + inner + close + after, before + mark + inner + mark + tail;
            r != s && |r| <= |s| && (|mark| == 1 ==> |r| < |s|) && (|mark| == 2 ==> |r| == |s|)
  {
    var s, r := before + open + inner + close + after, before + mark + inner + mark + tail;
    assert s[|before|] == open[0] && r[|before|] == mark[0];
  }

  /** Rewriting never lengthens, and leaves a text alone exactly when it has no pair. */
  lemma {:induction false} RewriteFixed(s: string, open: string, close: string, mark: string)
    requires |open| == |close| == 2 && IsMark(mark, open)
    ensures |RewriteMath(s, open, close, mark)| <= |s|
    ensures |mark| == 1 && HasPair(s, open, close) ==> |RewriteMath(s, open, close, mark)| < |s|
    ensures |mark| == 2 ==> |RewriteMath(s, open, close, mark)| == |s|
    ensures RewriteMath(s, open, close, mark) == s <==> !HasPair(s, open, close)
    decreases |s|
  {
    var i, j, before, inner, after, tail := RewritesLeftmostNearest(s, open, close, mark);
    if HasPair(s, open, close) {
      RewriteFixed(after, open, close, mark);
      MarkShows(before, open, inner, close, after, mark, tail);
    }
  }

  /** Rewriting keeps the number of words, whatever precedes the text. */
  lemma {:induction false} RewriteKeepsWords(s: string, open: string, close: string, mark: string, w: bool)
    requires IsDelimiter(open) && IsDelimiter(close) && IsMark(mark, open)
    ensures Starts(RewriteMath(s, open, close, mark), w) == Starts(s, w)
    decreases |s|
  {
    var i, j, before, inner, after, tail := RewritesLeftmostNearest(s, open, close, mark);
    if HasPair(s, open, close) {
      RewriteKeepsWords(after, open, close, mark, true);
      SwapDelimiters(s, RewriteMath(s, open, close, mark), before, open, inner, close, after, mark, tail, w);
    }
  }

  lemma SwapDelimiters(s: string, r: string, before: string, open: string, inner: string, close: string, after: string,
                       mark: string, tail: string, w: bool)
    requires IsDelimiter(open) && IsDelimiter(close) && IsMark(mark, open)
    requires s == before + open + inner + close + after && r == before + mark + inner + mark + tail
    requires Starts(tail, true) == Starts(after, true)
    ensures Starts(r, w) == Starts(s, w)
  {
    StartsDelimited(before, open, inner, close, after, w);
    StartsDelimited(before, mark, inner, mark, tail, w);
  }

  lemma StartsDelimited(before: string, open: string, inner: string, close: string, after: string, w: bool)
    requires open != "" && close != ""
    requires forall k :: 0 <= k < |open| ==> !IsSpace(open[k])
    requires forall k :: 0 <= k < |close| ==> !IsSpace(close[k])
    ensures Starts(before + open + inner + close + after, w) ==
            Starts(before, w) + (if EndsInWord(before, w) then 0 else 1) + Starts(inner, true) +
            (if EndsInWord(inner, true) then 0 else 1) + Starts(after, true)
  {
    StartsAppend(before + open + inner + close, after, w);
    StartsAppend(before + open + inner, close, w);
    StartsAppend(before + open, inner, w);
    StartsAppend(before, open, w);
    StartsToken(open, EndsInWord(before, w));
    StartsToken(close, EndsInWord(inner, true));
  }
}
