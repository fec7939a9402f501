/** Signed integers of a fixed number of bytes in the bundled Buffer: the writers with their sticky
    borrow flag, and the readers. */
module FixedWidth {
  import opened Basics

  datatype Result = Ok(value: int) | ValueOutOfBounds | IndexOutOfRange

  function Pow256(k: nat): (p: int)
    ensures p > 0
  {
    if k == 0 then 1 else 256 * Pow256(k - 1)
  }

  // ---------------------------------------------------------------- two's complement

  /** Byte k of the two's complement of v, the lowest being byte 0: floor division, then 8 bits. */
  function TwosByte(v: int, k: nat): Byte {
    v / Pow256(k) % 256
  }

  function LittleEndian(v: int, n: nat): (b: seq<Byte>)
    ensures |b| == n && forall k :: 0 <= k < n ==> b[k] == TwosByte(v, k)
  {
    seq(n, k requires 0 <= k < n => TwosByte(v, k))
  }

  function Reversed(b: seq<Byte>): (r: seq<Byte>)
    ensures |r| == |b| && forall k :: 0 <= k < |b| ==> r[k] == b[|b| - 1 - k]
  {
    seq(|b|, k requires 0 <= k < |b| => b[|b| - 1 - k])
  }

  function BigEndian(v: int, n: nat): seq<Byte> {
    Reversed(LittleEndian(v, n))
  }

  /** The value of bytes, the lowest first. */
  function Unsigned(b: seq<Byte>): nat {
    if b == [] then 0 else Unsigned(b[..|b| - 1]) + Pow256(|b| - 1) * b[|b| - 1]
  }

  function Signed(b: seq<Byte>): int
    requires b != []
  {
    if Unsigned(b) >= Pow256(|b| - 1) * 128 then Unsigned(b) - Pow256(|b|) else Unsigned(b)
  }

  /** The values that n bytes can hold: from -2^(8n-1) to 2^(8n-1) - 1. */
  predicate Fits(v: int, n: nat)
    requires n > 0
  {
    -Pow256(n - 1) * 128 <= v < Pow256(n - 1) * 128
  }

  /** The ranges of the widths in use, and the sign bit. */
  lemma WidthsAre(v: int, b: seq<Byte>)
    ensures Fits(v, 1) <==> -0x80 <= v <= 0x7F
    ensures Fits(v, 2) <==> -0x8000 <= v <= 0x7FFF
    ensures Fits(v, 3) <==> -0x80_0000 <= v <= 0x7F_FFFF
    ensures Fits(v, 4) <==> -0x8000_0000 <= v <= 0x7FFF_FFFF
    ensures Fits(v, 6) <==> -0x8000_0000_0000 <= v <= 0x7FFF_FFFF_FFFF
    ensures b != [] ==> (Signed(b) < 0 <==> b[|b| - 1] >= 0x80)
  {
    assert Pow256(1) == 0x100 && Pow256(2) == 0x1_0000 && Pow256(3) == 0x100_0000;
    assert Pow256(4) == 0x1_0000_0000 && Pow256(5) == 0x100_0000_0000;
    if b != [] {
      SignBit(b, Pow256(|b| - 1));
    }
  }

  lemma SignBit(b: seq<Byte>, p: nat)
    requires b != [] && p == Pow256(|b| - 1)
    ensures Signed(b) < 0 <==> b[|b| - 1] >= 0x80
  {
    UnsignedBound(b);
    UnsignedBound(b[..|b| - 1]);
    TopDigit(p, Unsigned(b[..|b| - 1]), b[|b| - 1]);
  }

  lemma TopDigit(p: nat, r: nat, d: nat)
    requires r < p
    ensures r + p * d >= p * 128 <==> d >= 128
  {
    if d >= 128 {
      assert p * d == p * 128 + p * (d - 128);
    } else {
      assert p * 128 == p * d + p * (128 - d);
      assert p * (128 - d) >= p;
    }
  }

  // ---------------------------------------------------------------- arithmetic

  lemma MultipleIsLarge(x: int, d: int)
    requires d >= 0
    ensures x >= 1 ==> x * d >= d
    ensures x <= -1 ==> x * d <= -d
  {
  }

  lemma DivModUnique(v: int, d: int, q: int, r: int)
    requires v == q * d + r && 0 <= r < d
    ensures v / d == q && v % d == r
  {
    assert (v / d - q) * d == r - v % d;
    MultipleIsLarge(v / d - q, d);
  }

  lemma DigitStep(v: int, p: nat)
    requires p > 0
    ensures v % (256 * p) == v % p + p * (v / p % 256)
    ensures v / (256 * p) == v / p / 256
  {
    var q, r := v / p, v % p;
    var h, b := q / 256, q % 256;
    Rearranged(h, b, p, r);
    DigitBound(p, b, r);
    DivModUnique(v, 256 * p, h, b * p + r);
  }

  lemma Rearranged(h: int, b: int, p: int, r: int)
    ensures (h * 256 + b) * p + r == h * (256 * p) + (b * p + r)
  {
  }

  lemma DigitBound(p: nat, b: nat, r: nat)
    requires b < 256 && r < p
    ensures 0 <= b * p && b * p + r < 256 * p
  {
    MultipleIsLarge(256 - b, p);
    assert (256 - b) * p == 256 * p - b * p;
  }

  /** One byte more: the remainder by the next power is the byte on top of the old remainder. */
  lemma ModStep(v: int, k: nat)
    ensures v % Pow256(k + 1) == v % Pow256(k) + Pow256(k) * TwosByte(v, k)
    ensures v / Pow256(k + 1) == v / Pow256(k) / 256
  {
    DigitStep(v, Pow256(k));
  }

  /** The bytes add up to the value modulo the power of their number. */
  lemma {:induction false} BytesAddUp(v: int, n: nat)
    ensures Unsigned(LittleEndian(v, n)) == v % Pow256(n)
  {
    if n > 0 {
      BytesAddUp(v, n - 1);
      assert LittleEndian(v, n)[..n - 1] == LittleEndian(v, n - 1);
      ModStep(v, n - 1);
    }
  }

  /** Reading what was written gives the value back, for every width and every value that fits. */
  lemma SignedOfBytes(v: int, n: nat)
    requires n > 0 && Fits(v, n)
    ensures Signed(LittleEndian(v, n)) == v
  {
    var p := Pow256(n);
    BytesAddUp(v, n);
    assert p == Pow256(n - 1) * 128 + Pow256(n - 1) * 128;
    if v >= 0 {
      DivModUnique(v, p, 0, v);
    } else {
      DivModUnique(v, p, -1, v + p);
    }
  }

  lemma {:induction false} UnsignedBound(b: seq<Byte>)
    ensures Unsigned(b) < Pow256(|b|)
  {
    if b != [] {
      var p, last := Pow256(|b| - 1), b[|b| - 1];
      UnsignedBound(b[..|b| - 1]);
      DigitBound(p, last, Unsigned(b[..|b| - 1]));
    }
  }

  /** Bytes that add up to v modulo the power of their number are the bytes of v. */
  lemma LittleEndianStep(v: int, n: nat)
    ensures LittleEndian(v, n + 1) == LittleEndian(v, n) + [TwosByte(v, n)]
  {
  }

  /** The last digit of the sum is the byte of the value there, and the others are the sum of the rest. */
  lemma LastDigit(v: int, n: nat, rest: int, last: int)
    requires v % Pow256(n + 1) == rest + Pow256(n) * last && 0 <= rest < Pow256(n)
    ensures TwosByte(v, n) == last && v % Pow256(n) == rest
  {
    var p := Pow256(n);
    ModStep(v, n);
    DivModUnique(v % Pow256(n + 1), p, last, rest);
    assert 0 <= v % p < p;
    DivModUnique(v % Pow256(n + 1), p, TwosByte(v, n), v % p);
  }

  lemma {:induction false} BytesOfSum(b: seq<Byte>, v: int)
    requires v % Pow256(|b|) == Unsigned(b)
    ensures LittleEndian(v, |b|) == b
  {
    if b != [] {
      var n := |b| - 1;
      UnsignedBound(b[..n]);
      LastDigit(v, n, Unsigned(b[..n]), b[n]);
      BytesOfSum(b[..n], v);
      LittleEndianStep(v, n);
      assert b == b[..n] + [b[n]];
    }
  }

  /** Writing what was read gives the bytes back, so every byte string is the bytes of one value. */
  lemma BytesOfSigned(b: seq<Byte>)
    requires b != []
    ensures Fits(Signed(b), |b|)
    ensures LittleEndian(Signed(b), |b|) == b
  {
    var u, p := Unsigned(b), Pow256(|b|);
    UnsignedBound(b);
    assert p == Pow256(|b| - 1) * 128 + Pow256(|b| - 1) * 128;
    if u == Signed(b) {
      DivModUnique(u, p, 0, u);
    } else {
      DivModUnique(u - p, p, -1, u);
    }
    BytesOfSum(b, Signed(b));
  }

  // ---------------------------------------------------------------- the writers

  /** Division of numbers followed by `>> 0`: towards zero, kept to 32 bits. */
  function Trunc(e: int, o: int): int
    requires o > 0
  {
    if e >= 0 then e / o else -(-e / o)
  }

  function Int32(x: int): (r: int)
    ensures -0x8000_0000 <= r < 0x8000_0000 && (x - r) % 0x1_0000_0000 == 0
  {
    var y := x % 0x1_0000_0000;
    if y >= 0x8000_0000 then y - 0x1_0000_0000 else y
  }

  /** `(e / o >> 0) - borrow & 255` */
  function MaskedByte(e: int, o: int, borrow: int): Byte
    requires o > 0
  {
    (Int32(Trunc(e, o)) - borrow) % 256
  }

  /** Whether the bytes below byte k hold anything that a negative value has to borrow for. */
  function Borrow(v: int, k: nat): int {
    if v < 0 && v % Pow256(k) != 0 then 1 else 0
  }

  lemma TruncIsFloor(e: int, o: int)
    requires o > 0
    ensures Trunc(e, o) - (if e < 0 && e % o != 0 then 1 else 0) == e / o
  {
    if e < 0 {
      var q, r := -e / o, -e % o;
      assert -e == q * o + r;
      if r == 0 {
        DivModUnique(e, o, -q, 0);
      } else {
        assert e == (-q - 1) * o + (o - r);
        DivModUnique(e, o, -q - 1, o - r);
      }
    }
  }

  /** Truncation minus the borrow is floor division, and 32 bits are enough for a byte. */
  lemma MaskedByteIsTwosByte(v: int, k: nat)
    ensures MaskedByte(v, Pow256(k), Borrow(v, k)) == TwosByte(v, k)
  {
    TruncIsFloor(v, Pow256(k));
    Int32KeepsByte(Trunc(v, Pow256(k)), Borrow(v, k));
  }

  lemma Int32KeepsByte(x: int, borrow: int)
    ensures (Int32(x) - borrow) % 256 == (x - borrow) % 256
  {
    var d := (x - Int32(x)) / 0x1_0000_0000;
    assert x - borrow == Int32(x) - borrow + 256 * (0x100_0000 * d);
  }

  /** The flag is raised for good by the first byte that is not zero. */
  lemma BorrowStep(v: int, k: nat)
    ensures Borrow(v, k + 1) == if v < 0 && Borrow(v, k) == 0 && TwosByte(v, k) != 0 then 1 else Borrow(v, k)
  {
    ModStep(v, k);
    MultipleIsLarge(TwosByte(v, k), Pow256(k));
  }

  predicate Written(after: seq<Byte>, before: seq<Byte>, offset: nat, part: seq<Byte>) {
    offset + |part| <= |before| && after == before[..offset] + part + before[offset + |part|..]
  }

  lemma WrittenInThreeParts(after: seq<Byte>, before: seq<Byte>, offset: nat, end: nat)
    requires offset <= end <= |before| == |after|
    requires after[..offset] == before[..offset] && after[end..] == before[end..]
    ensures Written(after, before, offset, after[offset..end])
  {
    assert after == after[..offset] + after[offset..end] + after[end..];
  }

  // The bytes of a value as a function, so that the loops need not look into the arithmetic.
  ghost predicate IsBytesOf(byte: nat -> Byte, v: int) {
    forall k: nat {:trigger TwosByte(v, k)} :: byte(k) == TwosByte(v, k)
  }

  ghost function BytesOf(v: int): nat -> Byte {
    (k: nat) => TwosByte(v, k)
  }

  /** One round of the writers: the borrow flag from the byte before, then byte k. */
  method PutByte(buffer: array<Byte>, at: nat, before: nat, value: int, o0: int, borrow0: int, ghost k: nat,
                 ghost byte: nat -> Byte)
    returns (o: int, borrow: int)
    requires at < buffer.Length && before < buffer.Length && k > 0 && IsBytesOf(byte, value)
    requires o0 == Pow256(k - 1) && borrow0 == Borrow(value, k - 1) && buffer[before] == byte(k - 1)
    modifies buffer
    ensures o == Pow256(k) && borrow == Borrow(value, k)
    ensures buffer[..] == old(buffer[..])[at := byte(k)]
  {
    o, borrow := o0 * 256, borrow0;
    BorrowStep(value, k - 1);
    assert byte(k - 1) == TwosByte(value, k - 1) && byte(k) == TwosByte(value, k);
    if value < 0 && borrow == 0 && buffer[before] != 0 {
      borrow := 1;
    }
    MaskedByteIsTwosByte(value, k);
    buffer[at] := MaskedByte(value, o, borrow);
  }

  /** `value & 255` */
  method PutFirst(buffer: array<Byte>, at: nat, value: int, ghost byte: nat -> Byte)
    requires at < buffer.Length && IsBytesOf(byte, value)
    modifies buffer
    ensures buffer[..] == old(buffer[..])[at := byte(0)]
    ensures Pow256(0) == 1 && Borrow(value, 0) == 0
  {
    assert byte(0) == TwosByte(value, 0);
    buffer[at] := value % 256;
  }

  /** The loops of the writers. */
  method PutBytesLE(buffer: array<Byte>, value: int, offset: nat, byteLength: nat, ghost byte: nat -> Byte)
    requires 1 <= byteLength && offset + byteLength <= buffer.Length && IsBytesOf(byte, value)
    modifies buffer
    ensures forall j :: offset <= j < offset + byteLength ==> buffer[j] == byte(j - offset)
    ensures forall k :: 0 <= k < buffer.Length && !(offset <= k < offset + byteLength) ==> buffer[k] == old(buffer[k])
  {
    var s, o, borrow := 0, 1, 0;
    PutFirst(buffer, offset, value, byte);
    s := s + 1;
    while s < byteLength
      invariant 1 <= s <= byteLength
      invariant o == Pow256(s - 1) && borrow == Borrow(value, s - 1)
      invariant forall j :: offset <= j < offset + s ==> buffer[j] == byte(j - offset)
      invariant forall k :: 0 <= k < buffer.Length && !(offset <= k < offset + byteLength) ==> buffer[k] == old(buffer[k])
    {
      o, borrow := PutByte(buffer, offset + s, offset + s - 1, value, o, borrow, s, byte);
      s := s + 1;
    }
  }

  method PutBytesBE(buffer: array<Byte>, value: int, offset: nat, byteLength: nat, ghost byte: nat -> Byte)
    requires 1 <= byteLength && offset + byteLength <= buffer.Length && IsBytesOf(byte, value)
    modifies buffer
    ensures forall j :: offset <= j < offset + byteLength ==> buffer[j] == byte(offset + byteLength - 1 - j)
    ensures forall k :: 0 <= k < buffer.Length && !(offset <= k < offset + byteLength) ==> buffer[k] == old(buffer[k])
  {
    var s, o, borrow := byteLength - 1, 1, 0;
    PutFirst(buffer, offset + s, value, byte);
    ghost var done := 1;
    s := s - 1;
    while s >= 0
      invariant -1 <= s == byteLength - 1 - done && 1 <= done <= byteLength
      invariant o == Pow256(done - 1) && borrow == Borrow(value, done - 1)
      invariant forall j :: offset + s < j < offset + byteLength ==> buffer[j] == byte(offset + byteLength - 1 - j)
      invariant forall k :: 0 <= k < buffer.Length && !(offset <= k < offset + byteLength) ==> buffer[k] == old(buffer[k])
    {
      o, borrow := PutByte(buffer, offset + s, offset + s + 1, value, o, borrow, done, byte);
      s, done := s - 1, done + 1;
    }
  }

  lemma WrittenLittle(after: seq<Byte>, before: seq<Byte>, offset: nat, v: int, n: nat)
    requires |after| == |before| && offset + n <= |before|
    requires forall k :: 0 <= k < |after| && !(offset <= k < offset + n) ==> after[k] == before[k]
    requires forall j :: offset <= j < offset + n ==> after[j] == BytesOf(v)(j - offset)
    ensures Written(after, before, offset, LittleEndian(v, n))
  {
    forall k | 0 <= k < n ensures after[offset..offset + n][k] == LittleEndian(v, n)[k] {
      assert after[offset + k] == BytesOf(v)(k);
    }
    WrittenInThreeParts(after, before, offset, offset + n);
  }

  lemma WrittenBig(after: seq<Byte>, before: seq<Byte>, offset: nat, v: int, n: nat)
    requires |after| == |before| && offset + n <= |before|
    requires forall k :: 0 <= k < |after| && !(offset <= k < offset + n) ==> after[k] == before[k]
    requires forall j :: offset <= j < offset + n ==> after[j] == BytesOf(v)(offset + n - 1 - j)
    ensures Written(after, before, offset, BigEndian(v, n))
  {
    forall k | 0 <= k < n ensures after[offset..offset + n][k] == BigEndian(v, n)[k] {
      assert after[offset + k] == BytesOf(v)(n - 1 - k);
    }
    WrittenInThreeParts(after, before, offset, offset + n);
  }

  /** `writeIntLE` with its checks. */
  method WriteIntLE(buffer: array<Byte>, value: int, offset: nat, byteLength: nat) returns (r: Result)
    requires 1 <= byteLength <= 6
    modifies buffer
    ensures r == if !Fits(value, byteLength) then ValueOutOfBounds
                 else if offset + byteLength > buffer.Length then IndexOutOfRange
                 else Ok(offset + byteLength)
    ensures r.Ok? ==> Written(buffer[..], old(buffer[..]), offset, LittleEndian(value, byteLength))
    ensures !r.Ok? ==> buffer[..] == old(buffer[..])
  {
    var half := Pow256(byteLength - 1) * 128;
    if value > half - 1 || value < -half {
      return ValueOutOfBounds;
    }
    if offset + byteLength > buffer.Length {
      return IndexOutOfRange;
    }
    PutBytesLE(buffer, value, offset, byteLength, BytesOf(value));
    WrittenLittle(buffer[..], old(buffer[..]), offset, value, byteLength);
    return Ok(offset + byteLength);
  }

  /** `writeIntBE` with its checks: the same bytes from the other end. */
  method WriteIntBE(buffer: array<Byte>, value: int, offset: nat, byteLength: nat) returns (r: Result)
    requires 1 <= byteLength <= 6
    modifies buffer
    ensures r == if !Fits(value, byteLength) then ValueOutOfBounds
                 else if offset + byteLength > buffer.Length then IndexOutOfRange
                 else Ok(offset + byteLength)
    ensures r.Ok? ==> Written(buffer[..], old(buffer[..]), offset, BigEndian(value, byteLength))
    ensures !r.Ok? ==> buffer[..] == old(buffer[..])
  {
    var half := Pow256(byteLength - 1) * 128;
    if value > half - 1 || value < -half {
      return ValueOutOfBounds;
    }
    if offset + byteLength > buffer.Length {
      return IndexOutOfRange;
    }
    PutBytesBE(buffer, value, offset, byteLength, BytesOf(value));
    WrittenBig(buffer[..], old(buffer[..]), offset, value, byteLength);
    return Ok(offset + byteLength);
  }

  // ---------------------------------------------------------------- the readers

  lemma UnsignedStep(b: seq<Byte>, k: nat, digit: int, n: int)
    requires k < |b| && digit == b[k] && n == Pow256(k)
    ensures Unsigned(b[..k + 1]) == Unsigned(b[..k]) + digit * n
  {
    assert b[..k + 1][..k] == b[..k];
  }

  lemma UnsignedFirst(b: seq<Byte>)
    requires b != []
    ensures Unsigned(b[..1]) == b[0] && b[..|b|] == b
  {
    assert b[..0] == [];
    UnsignedStep(b, 0, b[0], 1);
  }

  method ReadIntLE(buffer: array<Byte>, offset: nat, byteLength: nat) returns (r: Result)
    requires 1 <= byteLength <= 6
    ensures r == if offset + byteLength > buffer.Length then IndexOutOfRange
                 else Ok(Signed(buffer[offset..offset + byteLength]))
  {
    if offset + byteLength > buffer.Length {
      return IndexOutOfRange;
    }
    ghost var b := buffer[offset..offset + byteLength];
    UnsignedFirst(b);
    var i: int, n: int, s: nat := buffer[offset], 1, 1;
    while s < byteLength
      invariant 1 <= s <= byteLength && n == Pow256(s - 1) && i == Unsigned(b[..s])
    {
      n := n * 256;
      UnsignedStep(b, s, buffer[offset + s], n);
      i := i + buffer[offset + s] * n;
      s := s + 1;
    }
    if i >= n * 128 {
      i := i - Pow256(byteLength);
    }
    return Ok(i);
  }

  method ReadIntBE(buffer: array<Byte>, offset: nat, byteLength: nat) returns (r: Result)
    requires 1 <= byteLength <= 6
    ensures r == if offset + byteLength > buffer.Length then IndexOutOfRange
                 else Ok(Signed(Reversed(buffer[offset..offset + byteLength])))
  {
    if offset + byteLength > buffer.Length {
      return IndexOutOfRange;
    }
    ghost var b := Reversed(buffer[offset..offset + byteLength]);
    UnsignedFirst(b);
    var i := byteLength - 1;
    var v: int, n: int := buffer[offset + i], 1;
    while i > 0
      invariant 0 <= i < byteLength && n == Pow256(byteLength - 1 - i) && v == Unsigned(b[..byteLength - i])
    {
      n := n * 256;
      i := i - 1;
      UnsignedStep(b, byteLength - 1 - i, buffer[offset + i], n);
      v := v + buffer[offset + i] * n;
    }
    if v >= n * 128 {
      v := v - Pow256(byteLength);
    }
    return Ok(v);
  }

  /** A value that fits is read back by the matching reader from the place it was written to. */
  lemma WrittenReadsBack(after: seq<Byte>, before: seq<Byte>, offset: nat, v: int, n: nat)
    requires n > 0 && Fits(v, n)
    ensures Written(after, before, offset, LittleEndian(v, n)) ==> Signed(after[offset..offset + n]) == v
    ensures Written(after, before, offset, BigEndian(v, n)) ==> Signed(Reversed(after[offset..offset + n])) == v
  {
    SignedOfBytes(v, n);
    if Written(after, before, offset, LittleEndian(v, n)) {
      assert after[offset..offset + n] == LittleEndian(v, n);
    }
    if Written(after, before, offset, BigEndian(v, n)) {
      assert after[offset..offset + n] == BigEndian(v, n);
      assert Reversed(BigEndian(v, n)) == LittleEndian(v, n);
    }
  }
}
