/** Slicing strings between whole characters: `sliceUtf16Safe` and `truncateUtf16Safe` of src/utils.ts. */
module Utf16 {
  import opened Options

  /** One element of a JavaScript string. */
  type CodeUnit = u: int | 0 <= u < 0x10000

  /** A Unicode code point, or a surrogate that stands alone. */
  type CodePoint = c: int | 0 <= c < 0x11_0000

  type Text = seq<CodeUnit>

  predicate IsHighSurrogate(u: CodeUnit) {
    0xD800 <= u <= 0xDBFF
  }

  predicate IsLowSurrogate(u: CodeUnit) {
    0xDC00 <= u <= 0xDFFF
  }

  // ---------------------------------------------------------------- what a string says

  predicate PairAt(s: Text, i: int) {
    0 <= i < |s| - 1 && IsHighSurrogate(s[i]) && IsLowSurrogate(s[i + 1])
  }

  /** How many units the first character takes. */
  function FirstLength(s: Text): (n: nat)
    requires s != []
    ensures 1 <= n <= |s|
  {
    if PairAt(s, 0) then 2 else 1
  }

  /** The first character (section 2.2 of RFC 2781); a surrogate without its partner stands for itself. */
  function First(s: Text): CodePoint
    requires s != []
  {
    if PairAt(s, 0) then 0x1_0000 + (s[0] as int - 0xD800) * 0x400 + (s[1] as int - 0xDC00) else s[0]
  }

  function Decode(s: Text): seq<CodePoint> {
    if s == [] then [] else [First(s)] + Decode(s[FirstLength(s)..])
  }

  /** Encoding one code point (section 2.1 of RFC 2781). */
  function EncodeOne(c: CodePoint): Text {
    if c < 0x1_0000 then [c] else [0xD800 + (c - 0x1_0000) / 0x400, 0xDC00 + (c - 0x1_0000) % 0x400]
  }

  function Encode(cs: seq<CodePoint>): Text {
    if cs == [] then [] else EncodeOne(cs[0]) + Encode(cs[1..])
  }

  /** Decoding loses nothing. */
  lemma {:induction false} EncodeDecode(s: Text)
    ensures Encode(Decode(s)) == s
  {
    if s != [] {
      EncodeDecode(s[FirstLength(s)..]);
      EncodeFirst(s);
    }
  }

  lemma {:induction false} EncodeFirst(s: Text)
    requires s != []
    ensures EncodeOne(First(s)) == s[..FirstLength(s)]
  {
    if PairAt(s, 0) {
      EncodePair(s[0], s[1]);
    }
  }

  lemma {:induction false} EncodePair(high: CodeUnit, low: CodeUnit)
    requires IsHighSurrogate(high) && IsLowSurrogate(low)
    ensures EncodeOne(0x1_0000 + (high as int - 0xD800) * 0x400 + (low as int - 0xDC00)) == [high, low]
  {
  }

  /** A code point that a string can hold next to any other: not a surrogate. */
  predicate IsScalar(c: CodePoint) {
    !(0xD800 <= c < 0xE000)
  }

  lemma {:induction false} FirstEncoded(c: CodePoint, rest: Text)
    requires IsScalar(c)
    ensures var s := EncodeOne(c) + rest;
            First(s) == c && FirstLength(s) == |EncodeOne(c)| && s[FirstLength(s)..] == rest
  {
  }

  /** And every text of scalar values is decoded to itself, so all of the surrogate range is paired up. */
  lemma {:induction false} DecodeEncode(cs: seq<CodePoint>)
    requires forall i :: 0 <= i < |cs| ==> IsScalar(cs[i])
    ensures Decode(Encode(cs)) == cs
  {
    if cs != [] {
      DecodeEncode(cs[1..]);
      FirstEncoded(cs[0], Encode(cs[1..]));
    }
  }

  /** The place between `s[i - 1]` and `s[i]` is between two characters. */
  predicate IsBoundary(s: Text, i: int) {
    !PairAt(s, i - 1)
  }

  /** Cutting a string makes one character two exactly if the cut goes through a pair. */
  lemma {:induction false} CutCounts(s: Text, i: nat)
    requires i <= |s|
    ensures IsBoundary(s, i) ==> Decode(s[..i]) + Decode(s[i..]) == Decode(s)
    ensures !IsBoundary(s, i) ==> |Decode(s[..i])| + |Decode(s[i..])| == |Decode(s)| + 1
    decreases i
  {
    if i == 0 {
      assert s[..0] == [] && s[0..] == s;
    } else if i < FirstLength(s) {
      CutThroughPair(s);
    } else {
      var rest, j := s[FirstLength(s)..], i - FirstLength(s);
      CutCounts(rest, j);
      CutLater(s, i);
      Prepend(First(s), Decode(rest[..j]), Decode(rest[j..]));
    }
  }

  lemma {:induction false} Prepend(c: CodePoint, a: seq<CodePoint>, b: seq<CodePoint>)
    ensures ([c] + a) + b == [c] + (a + b)
  {
  }

  lemma {:induction false} CutThroughPair(s: Text)
    requires PairAt(s, 0)
    ensures |Decode(s[..1])| + |Decode(s[1..])| == |Decode(s)| + 1
  {
    assert s[..1][1..] == [] && s[1..][1..] == s[2..];
    assert Decode(s[..1]) == [s[0]] + Decode([]);
    assert !PairAt(s[1..], 0);
  }

  /** A cut behind the first character is a cut of the rest. */
  lemma {:induction false} CutLater(s: Text, i: nat)
    requires s != [] && FirstLength(s) <= i <= |s|
    ensures var rest, j := s[FirstLength(s)..], i - FirstLength(s);
            && Decode(s[..i]) == [First(s)] + Decode(rest[..j])
            && s[i..] == rest[j..]
            && IsBoundary(s, i) == IsBoundary(rest, j)
  {
    assert s[..i][FirstLength(s)..] == s[FirstLength(s)..][..i - FirstLength(s)];
  }

  // ---------------------------------------------------------------- slicing

  /** Where a given index comes to lie in a string of length `n`: negative ones count from the end. */
  function Clamp(n: nat, index: int): (k: nat)
    ensures k <= n
  {
    if index < 0 then if n + index < 0 then 0 else n + index
    else if index < n then index else n
  }

  function Lower(s: Text, start: int, end: Option<int>): (k: nat)
    ensures k <= |s|
  {
    var a, b := Clamp(|s|, start), if end.None? then |s| else Clamp(|s|, end.value);
    if b < a then b else a
  }

  function Upper(s: Text, start: int, end: Option<int>): (k: nat)
    ensures Lower(s, start, end) <= k <= |s|
  {
    var a, b := Clamp(|s|, start), if end.None? then |s| else Clamp(|s|, end.value);
    if b < a then a else b
  }

  /** An index within the string is meant as it is, a negative one counts from the end, and one beyond
      either end means that end. */
  lemma {:induction false} ClampedIndex(n: nat, k: int)
    requires 0 <= k
    ensures k <= n ==> Clamp(n, k) == k && (k > 0 ==> Clamp(n, -k) == n - k)
    ensures k >= n ==> Clamp(n, k) == n && (k > 0 ==> Clamp(n, -k) == 0)
  {
  }

  /** The last k units: what a start that counts from the end selects. */
  lemma {:induction false} RangeFromTheEnd(s: Text, k: int)
    requires 0 < k
    ensures Lower(s, -k, None) == (if k <= |s| then |s| - k else 0) && Upper(s, -k, None) == |s|
  {
  }

  /** It plays no part which of the two indexes is the smaller one. */
  lemma {:induction false} SwappedIndexes(s: Text, a: int, b: int)
    ensures Lower(s, a, Some(b)) == Lower(s, b, Some(a)) && Upper(s, a, Some(b)) == Upper(s, b, Some(a))
    ensures 0 <= a <= b <= |s| ==> Lower(s, a, Some(b)) == a && Upper(s, a, Some(b)) == b
  {
  }

  /** What of `s[from..to]` is left once halves of pairs at its ends are dropped. */
  function Whole(s: Text, from: nat, to: nat): Text
    requires from <= to <= |s|
  {
    var a, b := NextBoundary(s, from), LastBoundary(s, to);
    if a <= b then s[a..b] else []
  }

  function NextBoundary(s: Text, i: nat): (k: nat)
    requires i <= |s|
    ensures i <= k <= |s| && IsBoundary(s, k)
    ensures forall j :: i <= j < k ==> !IsBoundary(s, j)
  {
    if IsBoundary(s, i) then i else i + 1
  }

  function LastBoundary(s: Text, i: nat): (k: nat)
    requires i <= |s|
    ensures k <= i && IsBoundary(s, k)
    ensures forall j :: k < j <= i ==> !IsBoundary(s, j)
  {
    if IsBoundary(s, i) then i else i - 1
  }

  /** `sliceUtf16Safe(input, start, end)` */
  method SliceUtf16Safe(input: Text, start: int, end: Option<int>) returns (result: Text)
    ensures result == Whole(input, Lower(input, start, end), Upper(input, start, end))
  {
    var len := |input|;
    var from := if start < 0 then Max(len + start, 0) else Min(start, len);
    var to := if end.None? then len else if end.value < 0 then Max(len + end.value, 0) else Min(end.value, len);
    if to < from {
      var tmp := from;
      from := to;
      to := tmp;
    }
    ghost var lower, upper := Lower(input, start, end), Upper(input, start, end);
    assert from == lower && to == upper;
    if from > 0 && from < len {
      var codeUnit := input[from];
      if IsLowSurrogate(codeUnit) && IsHighSurrogate(input[from - 1]) {
        from := from + 1;
      }
    }
    assert from == NextBoundary(input, lower);
    if to > 0 && to < len {
      var codeUnit := input[to - 1];
      if IsHighSurrogate(codeUnit) && IsLowSurrogate(input[to]) {
        to := to - 1;
      }
    }
    assert to == LastBoundary(input, upper);
    return if from <= to then input[from..to] else [];
  }

  function Max(a: int, b: int): int {
    if a < b then b else a
  }

  function Min(a: int, b: int): int {
    if b < a then b else a
  }

  /** `truncateUtf16Safe(input, maxLen)` */
  method TruncateUtf16Safe(input: Text, maxLen: real) returns (result: Text)
    ensures result == Truncated(input, maxLen)
  {
    var limit := Max(0, maxLen.Floor);
    if |input| <= limit {
      return input;
    }
    result := SliceUtf16Safe(input, 0, Some(limit));
  }

  function Truncated(s: Text, maxLen: real): Text {
    if |s| <= Max(0, maxLen.Floor) then s else s[..LastBoundary(s, Max(0, maxLen.Floor))]
  }

  // ---------------------------------------------------------------- what a slice says

  /** `s[a..b]` is a run of whole characters inside `s[from..to]`. */
  predicate IsRun(s: Text, from: nat, to: nat, a: nat, b: nat) {
    from <= a <= b <= to <= |s| && IsBoundary(s, a) && IsBoundary(s, b)
  }

  /** Every other run lies inside this one. */
  ghost predicate IsWidestRun(s: Text, from: nat, to: nat, a: nat, b: nat) {
    IsRun(s, from, to, a, b) && forall c: nat, d: nat :: IsRun(s, from, to, c, d) ==> a <= c && d <= b
  }

  /** The slice is the widest run of whole characters inside the range: it is such a run, and every
      other one lies inside it; it is empty only if there is none with anything in it. */
  lemma {:induction false} WholeIsWidest(s: Text, from: nat, to: nat)
    requires from <= to <= |s|
    ensures Whole(s, from, to) != [] ==>
              exists a: nat, b: nat :: IsWidestRun(s, from, to, a, b) && Whole(s, from, to) == s[a..b]
    ensures Whole(s, from, to) == [] ==> forall c: nat, d: nat :: IsRun(s, from, to, c, d) ==> c == d
  {
    var a, b := NextBoundary(s, from), LastBoundary(s, to);
    forall c: nat, d: nat | IsRun(s, from, to, c, d) ensures a <= c && d <= b {
    }
    if a < b {
      assert IsWidestRun(s, from, to, a, b) && Whole(s, from, to) == s[a..b];
    }
  }

  /** Characters of a run are consecutive characters of the string. */
  lemma {:induction false} RunDecodes(s: Text, a: nat, b: nat)
    requires a <= b <= |s| && IsBoundary(s, a) && IsBoundary(s, b)
    ensures Decode(s) == Decode(s[..a]) + Decode(s[a..b]) + Decode(s[b..])
  {
    CutCounts(s, b);
    CutCounts(s[..b], a);
    assert s[..b][..a] == s[..a] && s[..b][a..] == s[a..b];
  }

  /** What a slice says is part of what the string says: no character is split, changed or made up. */
  lemma {:induction false} SliceDecodes(s: Text, from: nat, to: nat)
    requires from <= to <= |s|
    ensures exists i: nat, j: nat :: i <= j <= |Decode(s)| && Decode(Whole(s, from, to)) == Decode(s)[i..j]
  {
    var a, b := NextBoundary(s, from), LastBoundary(s, to);
    if a <= b {
      RunDecodes(s, a, b);
      var i := |Decode(s[..a])|;
      assert Decode(s[a..b]) == Decode(s)[i..i + |Decode(s[a..b])|];
    } else {
      assert Decode(s)[0..0] == [];
    }
  }

  /** No surrogate stands alone. */
  predicate IsWellFormed(s: Text) {
    forall i :: 0 <= i < |Decode(s)| ==> !(0xD800 <= Decode(s)[i] <= 0xDFFF)
  }

  lemma {:induction false} SliceStaysWellFormed(s: Text, from: nat, to: nat)
    requires from <= to <= |s| && IsWellFormed(s)
    ensures IsWellFormed(Whole(s, from, to))
  {
    SliceDecodes(s, from, to);
    var i: nat, j: nat :| i <= j <= |Decode(s)| && Decode(Whole(s, from, to)) == Decode(s)[i..j];
  }

  /** The two slices at an index make up the string again, or all of it but the pair there. */
  lemma {:induction false} TwoSlices(s: Text, k: nat)
    requires k <= |s|
    ensures IsBoundary(s, k) ==> Whole(s, 0, k) + Whole(s, k, |s|) == s
    ensures !IsBoundary(s, k) ==> Whole(s, 0, k) + s[k - 1..k + 1] + Whole(s, k, |s|) == s
  {
    if IsBoundary(s, k) {
      assert Whole(s, 0, k) == s[..k] && Whole(s, k, |s|) == s[k..];
    } else {
      assert Whole(s, 0, k) == s[..k - 1] && Whole(s, k, |s|) == s[k + 1..];
      assert s[..k - 1] + s[k - 1..k + 1] == s[..k + 1];
    }
  }

  // ---------------------------------------------------------------- truncating

  /** Truncating keeps a prefix: all of a string that fits, and otherwise up to the limit, or one
      unit less exactly if the limit falls inside a pair. */
  lemma {:induction false} TruncatedIsPrefix(s: Text, maxLen: real)
    ensures var limit, r := Max(0, maxLen.Floor), Truncated(s, maxLen);
            && r <= s && IsBoundary(s, |r|)
            && |r| == (if |s| <= limit then |s| else if PairAt(s, limit - 1) then limit - 1 else limit)
            && r == Whole(s, 0, Min(|s|, limit))
  {
  }

  /** Truncating twice is truncating once, to the smaller length. */
  lemma {:induction false} TruncatedTwice(s: Text, a: real, b: real)
    ensures Truncated(Truncated(s, a), b) == Truncated(s, if b < a then b else a)
  {
    var limit := Max(0, b.Floor);
    var t := Truncated(s, a);
    if b < a {
      FloorIsMonotonic(b, a);
      if limit < |t| {
        assert PairAt(t, limit - 1) == PairAt(s, limit - 1);
      }
    } else {
      FloorIsMonotonic(a, b);
    }
  }

  lemma {:induction false} FloorIsMonotonic(a: real, b: real)
    requires a <= b
    ensures a.Floor <= b.Floor
  {
  }
}
