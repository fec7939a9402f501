/** The forms of RFC 3629 (section 3) and of UTF-16, in numbers: what the encoder writes and the decoder reads for each
    code point, and for what is none. */
module Utf8Forms {
  import opened Basics
  import opened Utf8

  /** The bits of a byte or unit above its mark. */
  function Bits(x: int, mark: int): int {
    x - mark
  }

  predicate IsContinuation(b: Byte) {
    0x80 <= b <= 0xBF
  }

  /** The bytes of a code point, by their number: one, two, three or four. */
  lemma PointBytesForm(p: int)
    requires 0 <= p <= 0x10_FFFF
    ensures p <= 0x7F ==> PointBytes(p) == [p]
    ensures 0x80 <= p <= 0x7FF ==>
              var b := PointBytes(p);
              && |b| == 2 && 0xC0 <= b[0] <= 0xDF && IsContinuation(b[1])
              && p == Bits(b[0], 0xC0) * 0x40 + Bits(b[1], 0x80)
    ensures 0x800 <= p <= 0xFFFF ==>
              var b := PointBytes(p);
              && |b| == 3 && 0xE0 <= b[0] <= 0xEF && IsContinuation(b[1]) && IsContinuation(b[2])
              && p == Bits(b[0], 0xE0) * 0x1000 + Bits(b[1], 0x80) * 0x40 + Bits(b[2], 0x80)
    ensures 0x1_0000 <= p ==>
              var b := PointBytes(p);
              && |b| == 4 && 0xF0 <= b[0] <= 0xF4
              && IsContinuation(b[1]) && IsContinuation(b[2]) && IsContinuation(b[3])
              && p == Bits(b[0], 0xF0) * 0x4_0000 + Bits(b[1], 0x80) * 0x1000 + Bits(b[2], 0x80) * 0x40 + Bits(b[3], 0x80)
  {
    if p >= 0x1_0000 {
      FourDigits(p);
    } else if p >= 0x800 {
      ThreeDigits(p);
    }
  }

  /** The units of a code point: itself, or the pair that stands for it. */
  lemma UnitsForm(p: int)
    requires 0 <= p <= 0x10_FFFF
    ensures p <= 0xFFFF ==> UnitsOf(p) == [p]
    ensures 0x1_0000 <= p ==>
              var u := UnitsOf(p);
              && |u| == 2 && 0xD800 <= u[0] <= 0xDBFF && 0xDC00 <= u[1] <= 0xDFFF
              && p == 0x1_0000 + Bits(u[0], 0xD800) * 0x400 + Bits(u[1], 0xDC00)
  {
  }

  /** What the encoder makes of the character at k: the bytes of its code point, or those of U+FFFD for a surrogate
      that is in no pair. */
  lemma CharacterForm(s: seq<Unit>, k: nat)
    requires k < |s|
    ensures var c := Chunks(s, k);
            if 0xD800 <= s[k] <= 0xDBFF && k + 1 < |s| && 0xDC00 <= s[k + 1] <= 0xDFFF then
              c == [PointBytes(0x1_0000 + Bits(s[k], 0xD800) * 0x400 + Bits(s[k + 1], 0xDC00))] + Chunks(s, k + 2)
            else
              c == [if 0xD800 <= s[k] <= 0xDFFF then [0xEF, 0xBF, 0xBD] else PointBytes(s[k])] + Chunks(s, k + 1)
  {
  }

  /** What the decoder makes of the bytes at n: the units of the code point p of a sequence that the table of
      RFC 3629 allows, else U+FFFD for one byte. */
  lemma SequenceForm(b: seq<Byte>, n: nat) returns (p: int)
    requires n < |b|
    ensures SequenceAt(b, n) == 0 ==> Decoded(b, n) == [0xFFFD] + Decoded(b, n + 1)
    ensures SequenceAt(b, n) > 0 ==>
              && 0 <= p <= 0x10_FFFF && !(0xD800 <= p <= 0xDFFF)
              && PointBytes(p) == b[n..n + SequenceAt(b, n)]
              && Decoded(b, n) == UnitsOf(p) + Decoded(b, n + SequenceAt(b, n))
  {
    p := PointAt(b, n);
    PointIffSequence(b, n);
    PointIsScalar(b, n);
    StepForm(b, n, p, StepAt(b, n));
  }

  lemma StepForm(b: seq<Byte>, n: nat, p: int, k: nat)
    requires n < |b| && p == PointAt(b, n) && k == StepAt(b, n)
    ensures p < 0 ==> Decoded(b, n) == [0xFFFD] + Decoded(b, n + 1)
    ensures p >= 0 ==> PointBytes(p) == b[n..n + k] && Decoded(b, n) == UnitsOf(p) + Decoded(b, n + k)
  {
    DecodedAt(b, n, p, k);
    if p >= 0 {
      PointRestores(b, n);
    }
  }

  lemma PointIsScalar(b: seq<Byte>, n: nat)
    requires n < |b|
    ensures PointAt(b, n) <= 0x10_FFFF && !(0xD800 <= PointAt(b, n) <= 0xDFFF)
  {
  }

  /** The encoding is that of all characters, but the second of two leads at the end is forgotten. */
  lemma WholeEncoding(s: seq<Unit>)
    ensures var forgets := |s| >= 2 && 0xD800 <= s[|s| - 2] <= 0xDBFF && 0xD800 <= s[|s| - 1] <= 0xDBFF;
            Join(Chunks(s, 0)) == Encoded(s) + if forgets then [0xEF, 0xBF, 0xBD] else []
  {
    EncodesAllIff(s);
    Nothing(Encoded(s), []);
  }

  lemma {:induction false} AsciiChunks(s: seq<Unit>, k: nat)
    requires k <= |s| && forall j :: 0 <= j < |s| ==> s[j] <= 0x7F
    ensures Join(Chunks(s, k)) == s[k..]
    decreases |s| - k
  {
    if k < |s| {
      AsciiChunks(s, k + 1);
      CharacterForm(s, k);
      PointBytesForm(s[k]);
      assert Chunks(s, k)[1..] == Chunks(s, k + 1);
      assert s[k..] == [s[k]] + s[k + 1..];
    }
  }

  lemma {:induction false} AsciiDecodes(b: seq<Byte>, n: nat)
    requires n <= |b| && forall j :: 0 <= j < |b| ==> b[j] <= 0x7F
    ensures Decoded(b, n) == b[n..]
    decreases |b| - n
  {
    if n < |b| {
      AsciiDecodes(b, n + 1);
      DecodedAt(b, n, b[n], 1);
      assert b[n..] == [b[n]] + b[n + 1..];
    }
  }

  /** ASCII is its own encoding and its own decoding. */
  lemma AsciiIsItself(s: seq<Unit>, b: seq<Byte>)
    requires |s| == |b| && forall k :: 0 <= k < |s| ==> s[k] == b[k] <= 0x7F
    ensures Encoded(s) == b && Decoded(b, 0) == s
  {
    EncodesAllIff(s);
    AsciiChunks(s, 0);
    AsciiDecodes(b, 0);
    assert s[0..] == b && b[0..] == s;
  }
}
