/**
 The byte cap on failure descriptions, and why it never splits a character: texts are encodings of
 character sequences by the table of RFC 3629, section 3.
 */
module ErrFields {
  type Bytes = seq<bv8>

  const MAX_LEN: nat := 256

  /** Unicode scalar values: 21 bits, up to 0x10FFFF, without the surrogates. */
  predicate IsScalar(c: bv21) { c <= 0x10FFFF && !(0xD800 <= c <= 0xDFFF) }

  type Scalar = c: bv21 | IsScalar(c)

  function Tail(c: bv21): bv8 { 0x80 | ((c & 0x3F) as bv8) }

  function Encode(c: Scalar): Bytes {
    if c < 0x80 then [c as bv8]
    else if c < 0x800 then [0xC0 | ((c >> 6) as bv8), Tail(c)]
    else if c < 0x1_0000 then [0xE0 | ((c >> 12) as bv8), Tail(c >> 6), Tail(c)]
    else [0xF0 | ((c >> 18) as bv8), Tail(c >> 12), Tail(c >> 6), Tail(c)]
  }

  function EncodeAll(text: seq<Scalar>): Bytes {
    if text == [] then [] else Encode(text[0]) + EncodeAll(text[1..])
  }

  predicate IsContinuation(b: bv8) { b & 0xC0 == 0x80 }

  /** One to four bytes; all but the first are continuation bytes. */
  lemma EncodeShape(c: Scalar)
    ensures 1 <= |Encode(c)| <= 4 && !IsContinuation(Encode(c)[0])
    ensures forall k :: 1 <= k < |Encode(c)| ==> IsContinuation(Encode(c)[k])
  {
  }

  /** The bits a lead byte or a continuation byte carries. */
  function Bits(b: bv8, mask: bv8): bv21 { (b & mask) as bv21 }

  lemma TailBits(c: bv21)
    ensures Bits(Tail(c), 0x3F) == c & 0x3F
  {
  }

  lemma LeadBits(x: bv21)
    ensures x < 0x80 ==> Bits(x as bv8, 0x7F) == x && (x as bv8) & 0x80 == 0
    ensures x < 0x20 ==> Bits(0xC0 | (x as bv8), 0x1F) == x && (0xC0 | (x as bv8)) & 0xE0 == 0xC0
    ensures x < 0x10 ==> Bits(0xE0 | (x as bv8), 0x0F) == x && (0xE0 | (x as bv8)) & 0xF0 == 0xE0
    ensures x < 0x08 ==> Bits(0xF0 | (x as bv8), 0x07) == x && (0xF0 | (x as bv8)) & 0xF8 == 0xF0
  {
  }

  /** A value is put together from its groups of six bits. */
  lemma SixBits(c: bv21)
    ensures c == ((c >> 6) << 6) | (c & 0x3F)
    ensures c == ((c >> 12) << 12) | (((c >> 6) & 0x3F) << 6) | (c & 0x3F)
    ensures c == ((c >> 18) << 18) | (((c >> 12) & 0x3F) << 12) | (((c >> 6) & 0x3F) << 6) | (c & 0x3F)
    ensures c < 0x800 ==> c >> 6 < 0x20
    ensures c < 0x1_0000 ==> c >> 12 < 0x10
    ensures c >> 18 < 0x08
  {
  }

  /** The bytes carry the character's bits, most significant first, under the marks of its length. */
  lemma EncodeMeaning(c: Scalar)
    ensures var e := Encode(c);
            if c < 0x80 then |e| == 1 && e[0] & 0x80 == 0 && c == Bits(e[0], 0x7F)
            else if c < 0x800 then |e| == 2 && e[0] & 0xE0 == 0xC0 && c == (Bits(e[0], 0x1F) << 6) | Bits(e[1], 0x3F)
            else if c < 0x1_0000 then
              && |e| == 3 && e[0] & 0xF0 == 0xE0
              && c == (Bits(e[0], 0x0F) << 12) | (Bits(e[1], 0x3F) << 6) | Bits(e[2], 0x3F)
            else
              && |e| == 4 && e[0] & 0xF8 == 0xF0
              && c == (Bits(e[0], 0x07) << 18) | (Bits(e[1], 0x3F) << 12) | (Bits(e[2], 0x3F) << 6) | Bits(e[3], 0x3F)
  {
    SixBits(c);
    TailBits(c);
    TailBits(c >> 6);
    TailBits(c >> 12);
    LeadBits(if c < 0x80 then c else if c < 0x800 then c >> 6 else if c < 0x1_0000 then c >> 12 else c >> 18);
  }

  /** How many leading characters fit into `limit` bytes. */
  function Fitting(text: seq<Scalar>, limit: nat): (n: nat)
    ensures n <= |text|
  {
    if text == [] || |Encode(text[0])| > limit then 0
    else 1 + Fitting(text[1..], limit - |Encode(text[0])|)
  }

  /** Fitting is the longest: exactly the prefixes up to it fit. */
  lemma {:induction false} FittingIsLongest(text: seq<Scalar>, limit: nat, n: nat)
    requires n <= |text|
    ensures |EncodeAll(text[..n])| <= limit <==> n <= Fitting(text, limit)
    decreases |text|
  {
    if n > 0 {
      assert text[..n][1..] == text[1..][..n - 1];
      EncodeShape(text[0]);
      if |Encode(text[0])| <= limit {
        FittingIsLongest(text[1..], limit - |Encode(text[0])|, n - 1);
      }
    }
  }

  /** The walk back from position k to one that is not a continuation byte. */
  function WalkBack(s: Bytes, k: nat): (cut: nat)
    requires k < |s|
    ensures cut <= k && (cut > 0 ==> !IsContinuation(s[cut]))
    ensures forall j :: cut < j <= k ==> IsContinuation(s[j])
  {
    if k > 0 && IsContinuation(s[k]) then WalkBack(s, k - 1) else k
  }

  /** The walk stops at any position that starts a character. */
  lemma {:induction false} WalkBackShift(e: Bytes, rest: Bytes, k: nat)
    requires k < |rest| && !IsContinuation(rest[0])
    ensures WalkBack(e + rest, |e| + k) == |e| + WalkBack(rest, k)
    decreases k
  {
    assert (e + rest)[|e| + k] == rest[k];
    if k > 0 && IsContinuation(rest[k]) { WalkBackShift(e, rest, k - 1); }
  }

  lemma {:induction false} WalkBackToStart(s: Bytes, k: nat)
    requires k < |s| && forall j :: 1 <= j <= k ==> IsContinuation(s[j])
    ensures WalkBack(s, k) == 0
    decreases k
  {
    if k > 0 { WalkBackToStart(s, k - 1); }
  }

  lemma TextStartsCharacter(text: seq<Scalar>)
    requires EncodeAll(text) != []
    ensures text != [] && !IsContinuation(EncodeAll(text)[0])
  {
    EncodeShape(text[0]);
  }

  lemma EncodeCons(c: Scalar, text: seq<Scalar>)
    ensures EncodeAll([c] + text) == Encode(c) + EncodeAll(text)
  {
    assert ([c] + text)[1..] == text;
  }

  /** The first character of a text, apart from how it is encoded. */
  lemma FirstCharacter(text: seq<Scalar>) returns (e: Bytes)
    requires text != []
    ensures e == Encode(text[0]) && EncodeAll(text) == e + EncodeAll(text[1..]) && 1 <= |e| <= 4
    ensures forall k :: 1 <= k < |e| ==> IsContinuation(e[k])
    ensures forall limit: nat :: Fitting(text, limit) == if |e| > limit then 0 else 1 + Fitting(text[1..], limit - |e|)
  {
    e := Encode(text[0]);
    EncodeShape(text[0]);
  }

  /** A cut inside the first character takes it away whole. */
  lemma CutInFirst(e: Bytes, rest: Bytes, k: nat)
    requires k < |e| <= 4 && forall j :: 1 <= j < |e| ==> IsContinuation(e[j])
    ensures WalkBack(e + rest, k) == 0 && k <= 3
  {
    WalkBackToStart(e + rest, k);
  }

  lemma PrefixLength(text: seq<Scalar>, e: Bytes, n: nat)
    requires text != [] && n < |text| && e == Encode(text[0])
    ensures |EncodeAll(text[..1 + n])| == |e| + |EncodeAll(text[1..][..n])|
  {
    assert text[..1 + n] == [text[0]] + text[1..][..n];
    EncodeCons(text[0], text[1..][..n]);
  }

  /** On encoded text the walk back loses only the character it would have split. */
  lemma {:induction false} WalkBackFits(text: seq<Scalar>, k: nat)
    requires k < |EncodeAll(text)|
    ensures WalkBack(EncodeAll(text), k) == |EncodeAll(text[..Fitting(text, k)])|
    ensures k - WalkBack(EncodeAll(text), k) <= 3
    decreases |text|
  {
    var e := FirstCharacter(text);
    var more := text[1..];
    if k < |e| {
      CutInFirst(e, EncodeAll(more), k);
      assert text[..0] == [];
    } else {
      TextStartsCharacter(more);
      WalkBackShift(e, EncodeAll(more), k - |e|);
      WalkBackFits(more, k - |e|);
      PrefixLength(text, e, Fitting(more, k - |e|));
    }
  }

  lemma {:induction false} EncodePrefix(text: seq<Scalar>, n: nat)
    requires n <= |text|
    ensures EncodeAll(text[..n]) <= EncodeAll(text)
    decreases n
  {
    if n > 0 {
      assert text[..n][1..] == text[1..][..n - 1];
      EncodePrefix(text[1..], n - 1);
    }
  }

  function Capped(s: Bytes): Bytes {
    if |s| > MAX_LEN then s[..WalkBack(s, MAX_LEN)] else s
  }

  /**
   For every text the capped bytes encode its longest character prefix that fits, so they are valid
   UTF-8 again, and a text over the cap loses at most 3 bytes below it.
   */
  lemma CapKeepsCharacters(text: seq<Scalar>)
    ensures var n := Fitting(text, MAX_LEN);
            && Capped(EncodeAll(text)) == EncodeAll(text[..n]) && |EncodeAll(text[..n])| <= 256
            && (forall m: nat :: n < m <= |text| ==> |EncodeAll(text[..m])| > 256)
            && (|EncodeAll(text)| <= 256 <==> n == |text|)
            && (|EncodeAll(text)| > 256 ==> |Capped(EncodeAll(text))| >= 253)
  {
    var s, n := EncodeAll(text), Fitting(text, MAX_LEN);
    assert text[..|text|] == text;
    FittingIsLongest(text, MAX_LEN, n);
    FittingIsLongest(text, MAX_LEN, |text|);
    forall m: nat | n < m <= |text| ensures |EncodeAll(text[..m])| > MAX_LEN { FittingIsLongest(text, MAX_LEN, m); }
    if |s| > MAX_LEN {
      WalkBackFits(text, MAX_LEN);
      EncodePrefix(text, n);
    }
  }

  /** Capping again changes nothing, on any bytes at all. */
  lemma CapIsFinal(s: Bytes)
    ensures Capped(Capped(s)) == Capped(s) && Capped(s) <= s && |Capped(s)| <= MAX_LEN
  {
  }

  /** The cap as the code takes it, on text whose paths and credentials are already redacted. */
  method Sanitize(redacted: Bytes) returns (out: Bytes)
    ensures out == Capped(redacted)
    ensures out <= redacted && |out| <= MAX_LEN && (|redacted| <= MAX_LEN ==> out == redacted)
  {
    out := redacted;
    if |out| > MAX_LEN {
      var cut: nat := MAX_LEN;
      while cut > 0 && out[cut] & 0xC0 == 0x80
        invariant cut <= MAX_LEN && WalkBack(out, cut) == WalkBack(out, MAX_LEN)
      {
        cut := cut - 1;
      }
      out := out[..cut];
    }
  }
}
