/** Well-formed UTF-8 by the grammar of section 4 of RFC 3629, and the two functions that cut text to
    it: the decoding one of core/src/mesh_service.cpp and the trimming one of apps/src/clock.cpp. */
module Utf8 {
  type byte = n: nat | n < 256

  // ---------------------------------------------------------------------------
  // The grammar.

  predicate Tail(b: byte) {
    0x80 <= b <= 0xBF
  }

  predicate Tails(s: seq<byte>) {
    forall i :: 0 <= i < |s| ==> Tail(s[i])
  }

  /** One character: UTF8-1, UTF8-2, UTF8-3 or UTF8-4. */
  predicate Char(c: seq<byte>) {
    match |c|
    case 1 => c[0] <= 0x7F
    case 2 => 0xC2 <= c[0] <= 0xDF && Tail(c[1])
    case 3 =>
      && Tail(c[1]) && Tail(c[2])
      && (c[0] == 0xE0 ==> 0xA0 <= c[1]) && (c[0] == 0xED ==> c[1] <= 0x9F) && 0xE0 <= c[0] <= 0xEF
    case 4 =>
      && Tail(c[1]) && Tail(c[2]) && Tail(c[3])
      && (c[0] == 0xF0 ==> 0x90 <= c[1]) && (c[0] == 0xF4 ==> c[1] <= 0x8F) && 0xF0 <= c[0] <= 0xF4
    case _ => false
  }

  /** The first `w` bytes are a character. */
  predicate Starts(s: seq<byte>, w: nat) {
    1 <= w <= |s| && Char(s[..w])
  }

  /** A sequence of characters. */
  ghost predicate WellFormed(s: seq<byte>) {
    s == [] || exists w: nat {:trigger Starts(s, w)} :: Starts(s, w) && WellFormed(s[w..])
  }

  /** How many bytes a character with this first byte has; a byte that starts none counts as one. */
  function Need(lead: byte): (w: nat)
    ensures 1 <= w <= 4
  {
    if lead / 32 == 6 then 2 else if lead / 16 == 14 then 3 else if lead / 8 == 30 then 4 else 1
  }

  lemma CharShape(c: seq<byte>)
    requires Char(c)
    ensures c != [] && |c| == Need(c[0]) && !Tail(c[0]) && Tails(c[1..])
  {
  }

  /** No character is the start of another. */
  lemma CharUnique(s: seq<byte>, v: nat, w: nat)
    requires v <= |s| && w <= |s| && Char(s[..v]) && Char(s[..w])
    ensures v == w
  {
    CharShape(s[..v]);
    CharShape(s[..w]);
  }

  lemma FirstChar(s: seq<byte>, w: nat)
    requires w <= |s| && Char(s[..w])
    ensures WellFormed(s) <==> WellFormed(s[w..])
  {
    CharShape(s[..w]);
    assert Starts(s, w);
    if WellFormed(s) {
      var v: nat :| Starts(s, v) && WellFormed(s[v..]);
      CharUnique(s, v, w);
    }
  }

  lemma Slices(a: seq<byte>, b: seq<byte>, w: nat)
    requires w <= |a|
    ensures (a + b)[..w] == a[..w] && (a + b)[w..] == a[w..] + b
  {
  }

  /** Whatever follows well-formed text decides whether the whole is. */
  lemma {:induction false} Continues(a: seq<byte>, b: seq<byte>)
    requires WellFormed(a)
    ensures WellFormed(a + b) <==> WellFormed(b)
  {
    if a == [] {
      assert a + b == b;
    } else {
      var w: nat :| Starts(a, w) && WellFormed(a[w..]);
      Continues(a[w..], b);
      Slices(a, b, w);
      FirstChar(a + b, w);
    }
  }

  /** `s[..n]` is the longest well-formed text at the front of `s` that fits `bound`. */
  ghost predicate Longest(s: seq<byte>, bound: nat, n: nat) {
    && n <= bound && n <= |s| && WellFormed(s[..n])
    && forall m :: n < m <= bound && m <= |s| ==> !WellFormed(s[..m])
  }

  predicate CharAt(s: seq<byte>, n: nat, w: nat) {
    n + w <= |s| && Char(s[n..n + w])
  }

  /** No character that ends by `bound` starts at `n`. */
  ghost predicate NoneAt(s: seq<byte>, n: nat, bound: nat) {
    forall w :: 1 <= w <= bound - n ==> !CharAt(s, n, w)
  }

  /** Where no character starts, the text ends. */
  lemma StopsHere(s: seq<byte>, bound: nat, n: nat)
    requires n <= bound <= |s| && WellFormed(s[..n]) && NoneAt(s, n, bound)
    ensures Longest(s, bound, n)
  {
    forall m | n < m <= bound ensures !WellFormed(s[..m]) {
      NotThrough(s, bound, n, m);
    }
  }

  lemma SliceOfSlice(s: seq<byte>, n: nat, m: nat, w: nat)
    requires n <= m <= |s| && w <= m - n
    ensures s[n..m][..w] == s[n..n + w] && s[n..m][w..] == s[n + w..m]
  {
  }

  lemma NotThrough(s: seq<byte>, bound: nat, n: nat, m: nat)
    requires n < m <= bound <= |s| && WellFormed(s[..n]) && NoneAt(s, n, bound)
    ensures !WellFormed(s[..m])
  {
    var rest := s[n..m];
    Continues(s[..n], rest);
    assert s[..n] + rest == s[..m];
    if WellFormed(rest) {
      var w: nat :| Starts(rest, w) && WellFormed(rest[w..]);
      SliceOfSlice(s, n, m, w);
      assert CharAt(s, n, w);
    }
  }

  // ---------------------------------------------------------------------------
  // The decoder.

  const SMALLEST: seq<nat> := [0, 0, 0x80, 0x800, 0x10000]

  /** The bits a first byte contributes. */
  function LeadBits(lead: byte): nat {
    match Need(lead)
    case 2 => lead % 32
    case 3 => lead % 16
    case 4 => lead % 8
    case _ => lead
  }

  /** Whether the top two bits are 10. */
  predicate Continuation(b: byte)
    ensures Continuation(b) <==> Tail(b)
  {
    b / 64 == 2
  }

  /** The code point of the first `n` bytes of a character. */
  function Code(c: seq<byte>, n: nat): nat
    requires 1 <= n <= |c|
  {
    if n == 1 then LeadBits(c[0]) else Code(c, n - 1) * 64 + c[n - 1] % 64
  }

  /** The decoder's checks on a whole candidate. */
  predicate Decodes(c: seq<byte>) {
    && c != [] && |c| == Need(c[0]) && (|c| == 1 ==> c[0] < 0x80) && Tails(c[1..])
    && SMALLEST[|c|] <= Code(c, |c|) <= 0x10FFFF && !(0xD800 <= Code(c, |c|) <= 0xDFFF)
  }

  lemma CodeOf(c: seq<byte>)
    requires 2 <= |c| <= 4
    ensures Code(c, 2) == LeadBits(c[0]) * 64 + c[1] % 64
    ensures |c| >= 3 ==> Code(c, 3) == Code(c, 2) * 64 + c[2] % 64
    ensures |c| == 4 ==> Code(c, 4) == Code(c, 3) * 64 + c[3] % 64
  {
  }

  /** The checks on the code point admit exactly the grammar: nothing over-long, no surrogate, and
      nothing past the last code point. */
  lemma DecodesIffChar(c: seq<byte>)
    ensures Decodes(c) <==> Char(c)
  {
    if c != [] && |c| == Need(c[0]) && Tails(c[1..]) {
      forall i | 1 <= i < |c| ensures Tail(c[i]) && c[i] % 64 == c[i] - 0x80 {
        assert c[i] == c[1..][i - 1];
      }
      if |c| == 2 {
        CodeOf(c);
      } else if |c| == 3 {
        CodeOf(c);
      } else if |c| == 4 {
        CodeOf(c);
      }
    } else if Char(c) {
      CharShape(c);
    }
  }

  /** Decode one candidate of the width its first byte asks for. */
  method Decode(c: seq<byte>) returns (ok: bool)
    requires c != [] && |c| == Need(c[0]) && (|c| == 1 ==> c[0] < 0x80)
    ensures ok <==> Char(c)
  {
    DecodesIffChar(c);
    var code: nat := LeadBits(c[0]);
    for i := 1 to |c|
      invariant code == Code(c, i) && Tails(c[1..i])
    {
      assert c[1..][i - 1] == c[i] && c[1..i + 1] == c[1..i] + [c[i]];
      if !Continuation(c[i]) {
        return false;
      }
      code := code * 64 + c[i] % 64;
    }
    assert c[1..|c|] == c[1..];
    return SMALLEST[|c|] <= code <= 0x10FFFF && !(0xD800 <= code <= 0xDFFF);
  }

  /** The width of the character at `at`, or nothing. */
  method DecodeAt(text: seq<byte>, at: nat, bound: nat) returns (width: nat)
    requires at < bound <= |text|
    ensures width == 0 ==> NoneAt(text, at, bound)
    ensures width > 0 ==> at + width <= bound && CharAt(text, at, width)
  {
    OnlyWidth(text, at, bound);
    width := Need(text[at]);
    if (width == 1 && text[at] >= 0x80) || width > bound - at {
      return 0;
    }
    var ok := Decode(text[at..at + width]);
    return if ok then width else 0;
  }

  /** The only width that could be a character's is the one its first byte asks for. */
  lemma OnlyWidth(text: seq<byte>, at: nat, bound: nat)
    requires at < bound <= |text|
    ensures forall w :: 1 <= w <= bound - at && CharAt(text, at, w) ==> w == Need(text[at])
    ensures Need(text[at]) == 1 && text[at] >= 0x80 ==> !CharAt(text, at, 1)
  {
    forall w | 1 <= w <= bound - at && CharAt(text, at, w) ensures w == Need(text[at]) {
      CharShape(text[at..at + w]);
    }
  }

  /** The length of the longest well-formed prefix within the limit, for any bytes. */
  method Utf8PrefixLength(text: seq<byte>, limit: nat) returns (n: nat)
    ensures Longest(text, if limit < |text| then limit else |text|, n)
  {
    var bound := if limit < |text| then limit else |text|;
    n := 0;
    while n < bound
      invariant n <= bound && WellFormed(text[..n])
    {
      var width := DecodeAt(text, n, bound);
      if width == 0 {
        StopsHere(text, bound, n);
        return;
      }
      OneMore(text, n, width);
      n := n + width;
    }
  }

  lemma OneMore(s: seq<byte>, n: nat, w: nat)
    requires n + w <= |s| && WellFormed(s[..n]) && Char(s[n..n + w])
    ensures WellFormed(s[..n + w])
  {
    var c := s[n..n + w];
    assert c[..w] == c && c[w..] == [];
    FirstChar(c, w);
    Continues(s[..n], c);
    assert s[..n] + c == s[..n + w];
  }

  // ---------------------------------------------------------------------------
  // The trimmer.

  /** Text that a whole could have been cut off from. */
  ghost predicate CutFrom(text: seq<byte>, whole: seq<byte>) {
    WellFormed(whole) && text <= whole
  }

  /** One past the last byte that is not a continuation. */
  function LeadEnd(text: seq<byte>): (i: nat)
    ensures i <= |text| && Tails(text[i..]) && (i > 0 ==> !Tail(text[i - 1]))
  {
    if text == [] || !Tail(text[|text| - 1]) then |text|
    else
      var i := LeadEnd(text[..|text| - 1]);
      assert text[i..] == text[..|text| - 1][i..] + [text[|text| - 1]];
      i
  }

  /** What is left: the last character goes if it is not whole. */
  function Trimmed(text: seq<byte>): seq<byte> {
    var i := LeadEnd(text);
    if i > 0 && |text| - (i - 1) < Need(text[i - 1]) then text[..i - 1] else text
  }

  lemma TailsOf(text: seq<byte>, i: nat)
    requires i <= |text| && Tails(text[i..])
    ensures forall k :: i <= k < |text| ==> Tail(text[k])
  {
    forall k | i <= k < |text| ensures Tail(text[k]) {
      assert text[i..][k - i] == text[k];
    }
  }

  lemma LeadEndUnique(text: seq<byte>, i: nat)
    requires i <= |text| && Tails(text[i..]) && (i > 0 ==> !Tail(text[i - 1]))
    ensures i == LeadEnd(text)
  {
    TailsOf(text, i);
    TailsOf(text, LeadEnd(text));
  }

  /** A cut through well-formed text falls on a character's end, or inside one. */
  lemma {:induction false} CutFalls(whole: seq<byte>, k: nat, start: nat) returns (n: nat, w: nat)
    requires start < k <= |whole| && WellFormed(whole[..start]) && WellFormed(whole[start..])
    ensures n < k <= n + w && WellFormed(whole[..n]) && CharAt(whole, n, w)
    decreases k - start
  {
    var rest := whole[start..];
    var v: nat :| Starts(rest, v) && WellFormed(rest[v..]);
    SliceOfSlice(whole, start, |whole|, v);
    if k <= start + v {
      return start, v;
    }
    OneMore(whole, start, v);
    n, w := CutFalls(whole, k, start + v);
  }

  /** The last character of a cut text, whole or not, is where the trimmer looks for it. */
  lemma LeadFound(text: seq<byte>, whole: seq<byte>, n: nat, w: nat)
    requires text <= whole && CharAt(whole, n, w) && n < |text| <= n + w
    ensures LeadEnd(text) == n + 1 && Need(text[n]) == w
  {
    var c := whole[n..n + w];
    CharShape(c);
    forall i | n + 1 <= i < |text| ensures Tail(text[i]) {
      assert c[1..][i - n - 1] == text[i];
    }
    assert text[n] == c[0];
    LeadEndUnique(text, n + 1);
  }

  /** Cut well-formed text anywhere: trimming leaves exactly its longest well-formed prefix. */
  lemma TrimmedIsLongest(text: seq<byte>, whole: seq<byte>)
    requires CutFrom(text, whole)
    ensures Trimmed(text) <= text && Longest(text, |text|, |Trimmed(text)|)
  {
    if text == [] {
      assert LeadEnd(text) == 0;
    } else {
      assert whole[..0] == [] && whole[0..] == whole;
      var n, w := CutFalls(whole, |text|, 0);
      LeadFound(text, whole, n, w);
      assert text[..n] == whole[..n];
      if |text| == n + w {
        assert text[n..n + w] == whole[n..n + w];
        OneMore(text, n, w);
        assert text[..n + w] == text;
      } else {
        OnlyWidth(text, n, |text|);
        StopsHere(text, |text|, n);
      }
    }
  }

  /** The text a terminated buffer holds: everything before its first zero. */
  ghost function Text(s: seq<byte>): (t: seq<byte>)
    requires 0 in s
    ensures t + [0] <= s && 0 !in t
  {
    if s[0] == 0 then [] else [s[0]] + Text(s[1..])
  }

  lemma {:induction false} TextUnique(s: seq<byte>, end: nat)
    requires end < |s| && s[end] == 0 && 0 !in s[..end]
    ensures Text(s) == s[..end]
  {
    if end > 0 {
      assert s[0] == s[..end][0];
      assert s[1..][..end - 1] == s[..end][1..];
      TextUnique(s[1..], end - 1);
    }
  }

  method StrLen(s: array<byte>) returns (end: nat)
    requires 0 in s[..]
    ensures end < s.Length && s[end] == 0 && Text(s[..]) == s[..end]
  {
    end := 0;
    ghost var length := |Text(s[..])|;
    while s[end] != 0
      invariant end <= length < s.Length
      decreases length - end
    {
      end := end + 1;
    }
    assert Text(s[..]) == s[..][..length];
  }

  /** In place: the text afterwards is the trimmed one, and at most one byte was written.  Text that was
      cut off from something well-formed, at whatever byte, is left as exactly its longest whole part. */
  method TrimPartialUtf8(s: array<byte>)
    requires 0 in s[..]
    modifies s
    ensures 0 in s[..] && Text(s[..]) == Trimmed(old(Text(s[..])))
    ensures forall i :: 0 <= i < s.Length && i != |Text(s[..])| ==> s[i] == old(s[i])
    ensures forall whole :: CutFrom(old(Text(s[..])), whole) ==>
              Longest(old(Text(s[..])), old(|Text(s[..])|), |Text(s[..])|)
  {
    var end := StrLen(s);
    ghost var text := Text(s[..]);
    forall whole | CutFrom(text, whole) ensures Longest(text, |text|, |Trimmed(text)|) {
      TrimmedIsLongest(text, whole);
    }
    var i := LeadEndOf(s, end);
    if i == 0 || end - (i - 1) >= Need(s[i - 1]) {
      return;
    }
    ghost var before := s[..];
    s[i - 1] := 0;
    TextUnique(s[..], i - 1);
  }

  /** The backward scan over continuation bytes. */
  method LeadEndOf(s: array<byte>, end: nat) returns (i: nat)
    requires end <= s.Length
    ensures i == LeadEnd(s[..end])
  {
    i := end;
    while i > 0 && Continuation(s[i - 1])
      invariant i <= end && Tails(s[..end][i..])
    {
      assert s[..end][i - 1..] == [s[i - 1]] + s[..end][i..];
      i := i - 1;
    }
    LeadEndUnique(s[..end], i);
  }
}
