/** The two round trips of base64-js. */
module Base64Laws {
  import opened Basics
  import opened Base64

  // ---------------------------------------------------------------- one group there and back

  /** The tables are inverse to each other on an alphabet `a` without the padding character. */
  ghost predicate Inverse(u: Sextet -> int, v: int -> Sextet, a: int -> bool) {
    && !a(PAD)
    && (forall x: Sextet :: v(u(x)) == x && a(u(x)))
    && (forall c :: a(c) ==> u(v(c)) == c)
  }

  predicate Alphabetic(a: int -> bool, g: Four) {
    a(g.p) && a(g.q) && a(g.r) && a(g.t)
  }

  /** The last group of a canonical text: padding, and no bits left over in the character before it. */
  predicate CanonicalEnd(v: int -> Sextet, a: int -> bool, g: Four) {
    && a(g.p) && a(g.q) && g.t == PAD
    && if g.r == PAD then v(g.q) % 16 == 0 else a(g.r) && v(g.r) % 4 == 0
  }

  lemma QuadTriple(u: Sextet -> int, v: int -> Sextet, a: int -> bool, g: Three)
    requires Inverse(u, v, a)
    ensures Triple(v, Quad(u, g)) == g && Alphabetic(a, Quad(u, g))
  {
    BytesOfSextets(g.a, g.b, g.c);
  }

  lemma TripleQuad(u: Sextet -> int, v: int -> Sextet, a: int -> bool, g: Four)
    requires Inverse(u, v, a) && Alphabetic(a, g)
    ensures Quad(u, Triple(v, g)) == g
  {
    SextetsOfBytes(v(g.p), v(g.q), v(g.r), v(g.t));
  }

  lemma OneByteRoundTrip(u: Sextet -> int, v: int -> Sextet, a: int -> bool, p: Sextet, q: Sextet)
    requires Inverse(u, v, a) && q % 16 == 0
    ensures var g := PadOne(u, p, q); OneByte(v, g) == [Byte0(p, q)] && CanonicalEnd(v, a, g) && g.r == PAD
  {
  }

  lemma TwoBytesRoundTrip(u: Sextet -> int, v: int -> Sextet, a: int -> bool, p: Sextet, q: Sextet, r: Sextet)
    requires Inverse(u, v, a) && r % 4 == 0
    ensures var g := PadTwo(u, p, q, r);
            TwoBytes(v, g) == [Byte0(p, q), Byte1(q, r)] && CanonicalEnd(v, a, g) && g.r != PAD
  {
    assert a(u(r)) && v(u(r)) == r;
  }

  lemma OneByteRestored(u: Sextet -> int, v: int -> Sextet, a: int -> bool, g: Four)
    requires Inverse(u, v, a) && CanonicalEnd(v, a, g) && g.r == PAD
    ensures EndOfOne(u, OneByte(v, g)[0]) == g
  {
    BytesEnd(v(g.q));
    SextetsOfBytes(v(g.p), v(g.q), 0, 0);
  }

  lemma TwoBytesRestored(u: Sextet -> int, v: int -> Sextet, a: int -> bool, g: Four)
    requires Inverse(u, v, a) && CanonicalEnd(v, a, g) && g.r != PAD
    ensures EndOfTwo(u, TwoBytes(v, g)[0], TwoBytes(v, g)[1]) == g
  {
    BytesEnd(v(g.r));
    SextetsOfBytes(v(g.p), v(g.q), v(g.r), 0);
  }

  // ---------------------------------------------------------------- all groups

  lemma {:induction false} TriplesAt(f: Three -> Four, b: seq<Byte>, g: nat, k: nat)
    requires k < g && 3 * g <= |b|
    ensures |Triples(f, b, 0, g)| == 4 * g
    ensures FourAt(Triples(f, b, 0, g), k) == f(ThreeAt(b, k))
  {
    TriplesLength(f, b, 0, g);
    TriplesLength(f, b, 0, g - 1);
    if k < g - 1 {
      TriplesAt(f, b, g - 1, k);
    }
  }

  lemma {:induction false} GroupsAt(h: Four -> Three, s: seq<int>, g: nat, k: nat)
    requires k < g && 4 * g <= |s|
    ensures |Groups(h, s, 0, g)| == 3 * g
    ensures ThreeAt(Groups(h, s, 0, g), k) == h(FourAt(s, k))
  {
    GroupsLength(h, s, 0, g);
    GroupsLength(h, s, 0, g - 1);
    if k < g - 1 {
      GroupsAt(h, s, g - 1, k);
    }
  }

  lemma FourInFront(a: seq<int>, t: seq<int>, k: nat)
    requires 4 * k + 4 <= |a|
    ensures FourAt(a + t, k) == FourAt(a, k)
  {
  }

  lemma ThreeInFront(a: seq<Byte>, t: seq<Byte>, k: nat)
    requires 3 * k + 3 <= |a|
    ensures ThreeAt(a + t, k) == ThreeAt(a, k)
  {
  }

  lemma SliceThree(b: seq<Byte>, n: nat)
    requires n + 3 <= |b|
    ensures b[..n + 3] == b[..n] + [b[n], b[n + 1], b[n + 2]]
  {
  }

  lemma SliceFour(s: seq<int>, n: nat)
    requires n + 4 <= |s|
    ensures s[..n + 4] == s[..n] + [s[n], s[n + 1], s[n + 2], s[n + 3]]
  {
  }

  lemma {:induction false} GroupsAre(h: Four -> Three, s: seq<int>, b: seq<Byte>, g: nat)
    requires 3 * g <= |b| && 4 * g <= |s|
    requires forall k :: 0 <= k < g ==> h(FourAt(s, k)) == ThreeAt(b, k)
    ensures Groups(h, s, 0, g) == b[..3 * g]
  {
    if g > 0 {
      GroupsAre(h, s, b, g - 1);
      SliceThree(b, 3 * (g - 1));
    }
  }

  lemma {:induction false} TriplesAre(f: Three -> Four, b: seq<Byte>, s: seq<int>, g: nat)
    requires 3 * g <= |b| && 4 * g <= |s|
    requires forall k :: 0 <= k < g ==> f(ThreeAt(b, k)) == FourAt(s, k)
    ensures Triples(f, b, 0, g) == s[..4 * g]
  {
    if g > 0 {
      TriplesAre(f, b, s, g - 1);
      SliceFour(s, 4 * (g - 1));
    }
  }

  // ---------------------------------------------------------------- both directions

  /** The parts of an encoding. */
  lemma EncodedGroups(u: Sextet -> int, b: seq<Byte>)
    ensures var s, g := EncodedBy(u, b), |b| / 3;
            && |s| == 4 * g + (if |b| % 3 == 0 then 0 else 4)
            && (forall k :: 0 <= k < g ==> FourAt(s, k) == Quad(u, ThreeAt(b, k)))
  {
    var g := |b| / 3;
    var t := Triples(Quads(u), b, 0, g);
    TriplesLength(Quads(u), b, 0, g);
    forall k | 0 <= k < g ensures FourAt(t + Tail(u, b), k) == Quad(u, ThreeAt(b, k)) {
      TriplesAt(Quads(u), b, g, k);
      FourInFront(t, Tail(u, b), k);
    }
  }

  lemma LastFour(t: seq<int>, g: nat, e: Four)
    requires |t| == 4 * g
    ensures FourAt(t + e.List(), g) == e
  {
  }

  lemma EncodedEnd(u: Sextet -> int, b: seq<Byte>)
    requires |b| % 3 > 0
    ensures |EncodedBy(u, b)| == 4 * (|b| / 3) + 4
    ensures FourAt(EncodedBy(u, b), |b| / 3) ==
            if |b| % 3 == 1 then EndOfOne(u, b[|b| - 1]) else EndOfTwo(u, b[|b| - 2], b[|b| - 1])
  {
    var g := |b| / 3;
    TriplesLength(Quads(u), b, 0, g);
    LastFour(Triples(Quads(u), b, 0, g), g,
             if |b| % 3 == 1 then EndOfOne(u, b[|b| - 1]) else EndOfTwo(u, b[|b| - 2], b[|b| - 1]));
  }

  /** The texts that RFC 4648 calls canonical: the alphabet only, padding only at the end, and no bits
      left over in the last character before it. */
  predicate Canonical(v: int -> Sextet, a: int -> bool, s: seq<int>)
    requires |s| % 4 == 0
  {
    && (forall k :: 0 <= k < FullGroups(s) ==> Alphabetic(a, FourAt(s, k)))
    && (Padding(s) > 0 ==> CanonicalEnd(v, a, FourAt(s, |s| / 4 - 1)))
  }

  lemma PaddingOfEnd(u: Sextet -> int, v: int -> Sextet, a: int -> bool, b: seq<Byte>)
    requires Inverse(u, v, a) && |b| % 3 > 0
    ensures FullGroups(EncodedBy(u, b)) == |b| / 3 && Padding(EncodedBy(u, b)) == 3 - |b| % 3
  {
    EncodedEnd(u, b);
    PaddingOfLast(EncodedBy(u, b), |b| / 3);
    if |b| % 3 == 2 {
      TwoBytesRoundTrip(u, v, a, Sextet0(b[|b| - 2]), Sextet1(b[|b| - 2], b[|b| - 1]), Sextet2(b[|b| - 1], 0));
    }
  }

  lemma PaddingOfFull(u: Sextet -> int, v: int -> Sextet, a: int -> bool, b: seq<Byte>)
    requires Inverse(u, v, a) && |b| % 3 == 0
    ensures FullGroups(EncodedBy(u, b)) == |b| / 3 && Padding(EncodedBy(u, b)) == 0
  {
    var g := |b| / 3;
    EncodedGroups(u, b);
    if g > 0 {
      PaddingOfLast(EncodedBy(u, b), g - 1);
      QuadTriple(u, v, a, ThreeAt(b, g - 1));
    }
  }

  /** What the decoder takes for padding in an encoding is the padding. */
  lemma EncodedPadding(u: Sextet -> int, v: int -> Sextet, a: int -> bool, b: seq<Byte>)
    requires Inverse(u, v, a)
    ensures |EncodedBy(u, b)| % 4 == 0 && FullGroups(EncodedBy(u, b)) == |b| / 3
    ensures Padding(EncodedBy(u, b)) == (if |b| % 3 == 0 then 0 else 3 - |b| % 3)
  {
    EncodedGroups(u, b);
    if |b| % 3 > 0 {
      PaddingOfEnd(u, v, a, b);
    } else {
      PaddingOfFull(u, v, a, b);
    }
  }

  lemma PaddingOfLast(s: seq<int>, g: nat)
    requires |s| == 4 * g + 4
    ensures Padding(s) == if FourAt(s, g).r == PAD then 2 else if FourAt(s, g).t == PAD then 1 else 0
    ensures FullGroups(s) == if Padding(s) > 0 then g else g + 1
  {
  }

  lemma OneBack(x: Byte)
    ensures Byte0(Sextet0(x), Sextet1(x, 0)) == x
  {
  }

  lemma TwoBack(x: Byte, y: Byte)
    ensures Byte0(Sextet0(x), Sextet1(x, y)) == x && Byte1(Sextet1(x, y), Sextet2(y, 0)) == y
  {
  }

  /** The bytes of the last group, and nothing is left over in its last sextet. */
  lemma LastBytes(b: seq<Byte>)
    ensures |b| % 3 == 1 ==>
              var x := b[|b| - 1];
              b[3 * (|b| / 3)..] == [Byte0(Sextet0(x), Sextet1(x, 0))] && Sextet1(x, 0) % 16 == 0
    ensures |b| % 3 == 2 ==>
              var x, y := b[|b| - 2], b[|b| - 1];
              && b[3 * (|b| / 3)..] == [Byte0(Sextet0(x), Sextet1(x, y)), Byte1(Sextet1(x, y), Sextet2(y, 0))]
              && Sextet2(y, 0) % 4 == 0
  {
    if |b| % 3 == 1 {
      SextetsEnd(b[|b| - 1]);
      OneBack(b[|b| - 1]);
      assert b[3 * (|b| / 3)..] == [b[|b| - 1]];
    } else if |b| % 3 == 2 {
      SextetsEnd(b[|b| - 1]);
      TwoBack(b[|b| - 2], b[|b| - 1]);
      assert b[3 * (|b| / 3)..] == [b[|b| - 2], b[|b| - 1]];
    }
  }

  lemma EncodedRest(u: Sextet -> int, v: int -> Sextet, a: int -> bool, b: seq<Byte>)
    requires Inverse(u, v, a)
    ensures var s := EncodedBy(u, b);
            && |s| % 4 == 0 && Rest(v, s) == b[3 * (|b| / 3)..]
            && (Padding(s) > 0 ==> CanonicalEnd(v, a, FourAt(s, |s| / 4 - 1)))
  {
    EncodedPadding(u, v, a, b);
    LastBytes(b);
    if |b| % 3 == 1 {
      EncodedEnd(u, b);
      OneByteRoundTrip(u, v, a, Sextet0(b[|b| - 1]), Sextet1(b[|b| - 1], 0));
    } else if |b| % 3 == 2 {
      EncodedEnd(u, b);
      TwoBytesRoundTrip(u, v, a, Sextet0(b[|b| - 2]), Sextet1(b[|b| - 2], b[|b| - 1]), Sextet2(b[|b| - 1], 0));
    }
  }

  lemma DecodedOfEncodedBy(u: Sextet -> int, v: int -> Sextet, a: int -> bool, b: seq<Byte>)
    requires Inverse(u, v, a)
    ensures |EncodedBy(u, b)| % 4 == 0 && DecodedBy(v, EncodedBy(u, b)) == b && Canonical(v, a, EncodedBy(u, b))
  {
    var s, g := EncodedBy(u, b), |b| / 3;
    EncodedGroups(u, b);
    EncodedPadding(u, v, a, b);
    EncodedRest(u, v, a, b);
    forall k | 0 <= k < g ensures Triple(v, FourAt(s, k)) == ThreeAt(b, k) && Alphabetic(a, FourAt(s, k)) {
      QuadTriple(u, v, a, ThreeAt(b, k));
    }
    GroupsAre(TriplesBy(v), s, b, g);
    Rejoined(b, 3 * g);
  }

  /** The groups of a canonical text come back. */
  lemma CanonicalGroups(u: Sextet -> int, v: int -> Sextet, a: int -> bool, s: seq<int>)
    requires Inverse(u, v, a) && |s| % 4 == 0 && Canonical(v, a, s)
    ensures var b, g := DecodedBy(v, s), FullGroups(s); 3 * g <= |b| && Triples(Quads(u), b, 0, g) == s[..4 * g]
  {
    var b, g := DecodedBy(v, s), FullGroups(s);
    var front := Groups(TriplesBy(v), s, 0, g);
    GroupsLength(TriplesBy(v), s, 0, g);
    forall k | 0 <= k < g ensures Quad(u, ThreeAt(b, k)) == FourAt(s, k) {
      GroupsAt(TriplesBy(v), s, g, k);
      ThreeInFront(front, Rest(v, s), k);
      TripleQuad(u, v, a, FourAt(s, k));
    }
    TriplesAre(Quads(u), b, s, g);
  }

  lemma RestLength(v: int -> Sextet, s: seq<int>)
    requires |s| % 4 == 0
    ensures |Rest(v, s)| == if Padding(s) == 0 then 0 else 3 - Padding(s)
    ensures Padding(s) > 0 ==> |s| == 4 * FullGroups(s) + 4
    ensures Padding(s) == 0 ==> |s| == 4 * FullGroups(s)
  {
  }

  lemma SliceEnd(s: seq<int>, n: nat)
    requires n + 4 == |s|
    ensures s[n..] == [s[n], s[n + 1], s[n + 2], s[n + 3]]
  {
  }

  lemma CanonicalTail(u: Sextet -> int, v: int -> Sextet, a: int -> bool, s: seq<int>)
    requires Inverse(u, v, a) && |s| % 4 == 0 && Canonical(v, a, s)
    ensures |DecodedBy(v, s)| / 3 == FullGroups(s) && Tail(u, DecodedBy(v, s)) == s[4 * FullGroups(s)..]
  {
    var b, g := DecodedBy(v, s), FullGroups(s);
    GroupsLength(TriplesBy(v), s, 0, g);
    RestLength(v, s);
    if Padding(s) > 0 {
      var e := FourAt(s, g);
      SliceEnd(s, 4 * g);
      PaddingOfLast(s, g);
      if e.r == PAD {
        OneByteRestored(u, v, a, e);
      } else {
        TwoBytesRestored(u, v, a, e);
      }
    }
  }

  lemma EncodedOfDecodedBy(u: Sextet -> int, v: int -> Sextet, a: int -> bool, s: seq<int>)
    requires Inverse(u, v, a) && |s| % 4 == 0
    ensures EncodedBy(u, DecodedBy(v, s)) == s <==> Canonical(v, a, s)
  {
    DecodedOfEncodedBy(u, v, a, DecodedBy(v, s));
    if Canonical(v, a, s) {
      CanonicalGroups(u, v, a, s);
      CanonicalTail(u, v, a, s);
      Rejoined(s, 4 * FullGroups(s));
    }
  }

  // ---------------------------------------------------------------- the tables

  /** The alphabet of RFC 4648, section 4. */
  function CharOf(v: Sextet): int {
    if v < 26 then 65 + v
    else if v < 52 then 97 + v - 26
    else if v < 62 then 48 + v - 52
    else if v == 62 then 43
    else 47
  }

  /** The decoder's table: the alphabet, `-` and `_`; a character outside it counts as 0. */
  function ValueOf(c: int): Sextet {
    if 65 <= c <= 90 then c - 65
    else if 97 <= c <= 122 then c - 97 + 26
    else if 48 <= c <= 57 then c - 48 + 52
    else if c == 43 || c == 45 then 62
    else if c == 47 || c == 95 then 63
    else 0
  }

  predicate InAlphabet(c: int) {
    65 <= c <= 90 || 97 <= c <= 122 || 48 <= c <= 57 || c == 43 || c == 47
  }

  lemma TablesAreInverse()
    ensures Inverse(CharOf, ValueOf, InAlphabet)
  {
  }

  function Encoded(b: seq<Byte>): seq<int> {
    EncodedBy(CharOf, b)
  }

  function Decoded(s: seq<int>): Result {
    ResultBy(ValueOf, s)
  }

  lemma RoundedUp(n: nat)
    ensures 4 * ((n + 2) / 3) == 4 * (n / 3) + (if n % 3 == 0 then 0 else 4)
  {
    assert n + 2 == 3 * (n / 3) + (n % 3 + 2);
  }

  lemma EncodedLength(b: seq<Byte>)
    ensures |Encoded(b)| == 4 * ((|b| + 2) / 3)
  {
    EncodedGroups(CharOf, b);
    RoundedUp(|b|);
  }

  /** Decoding inverts encoding, for every byte array. */
  lemma DecodedOfEncoded(b: seq<Byte>)
    ensures Decoded(Encoded(b)) == Ok(b)
  {
    TablesAreInverse();
    DecodedOfEncodedBy(CharOf, ValueOf, InAlphabet, b);
  }

  predicate IsCanonical(s: seq<int>) {
    |s| % 4 == 0 && Canonical(ValueOf, InAlphabet, s)
  }

  lemma EncodedIsCanonical(b: seq<Byte>)
    ensures IsCanonical(Encoded(b))
  {
    TablesAreInverse();
    DecodedOfEncodedBy(CharOf, ValueOf, InAlphabet, b);
  }

  /** A text is decoded, and encoding its bytes restores it, exactly when it is canonical. */
  lemma EncodedOfDecodedIff(s: seq<int>)
    ensures Decoded(s).Ok? && Encoded(Decoded(s).bytes) == s <==> IsCanonical(s)
  {
    TablesAreInverse();
    if |s| % 4 == 0 {
      EncodedOfDecodedBy(CharOf, ValueOf, InAlphabet, s);
    }
  }

  // ---------------------------------------------------------------- character by character

  /** The table of RFC 4648, section 4. */
  predicate IsDigit(c: int, v: int) {
    || (0 <= v < 26 && c == 'A' as int + v)
    || (26 <= v < 52 && c == 'a' as int + (v - 26))
    || (52 <= v < 62 && c == '0' as int + (v - 52))
    || (v == 62 && c == '+' as int)
    || (v == 63 && c == '/' as int)
  }

  /** Byte k, or 0 behind the last. */
  function ByteOr0(b: seq<Byte>, k: nat): int {
    if k < |b| then b[k] else 0
  }

  /** The 24 bits of group g. */
  function Bits24(b: seq<Byte>, g: nat): int {
    ByteOr0(b, 3 * g) * 0x1_0000 + ByteOr0(b, 3 * g + 1) * 0x100 + ByteOr0(b, 3 * g + 2)
  }

  lemma FullGroupIs(b: seq<Byte>, g: nat)
    requires 3 * g + 3 <= |b|
    ensures |Encoded(b)| >= 4 * g + 4
    ensures FourAt(Encoded(b), g) == Quad(CharOf, Three(b[3 * g], b[3 * g + 1], b[3 * g + 2]))
  {
    EncodedGroups(CharOf, b);
  }

  lemma LastGroupIs(b: seq<Byte>, g: nat)
    requires 3 * g < |b| < 3 * g + 3
    ensures |Encoded(b)| >= 4 * g + 4
    ensures FourAt(Encoded(b), g)
         == if |b| == 3 * g + 1 then EndOfOne(CharOf, b[3 * g]) else EndOfTwo(CharOf, b[3 * g], b[3 * g + 1])
  {
    assert g == |b| / 3;
    EncodedEnd(CharOf, b);
  }

  lemma DigitIs(v: Sextet)
    ensures IsDigit(CharOf(v), v)
  {
  }

  /** The four characters of a group: six bits each, the highest first; `=` where no bit is left. */
  lemma EncodedGroupIs(b: seq<Byte>, g: nat)
    requires 3 * g < |b|
    ensures |Encoded(b)| >= 4 * g + 4
    ensures var f, x, n := FourAt(Encoded(b), g), Bits24(b, g), |b| - 3 * g;
            && IsDigit(f.p, x / 0x4_0000 % 64) && IsDigit(f.q, x / 0x1000 % 64)
            && (if n > 1 then IsDigit(f.r, x / 64 % 64) else f.r == '=' as int)
            && (if n > 2 then IsDigit(f.t, x % 64) else f.t == '=' as int)
  {
    var p, q, r := ByteOr0(b, 3 * g), ByteOr0(b, 3 * g + 1), ByteOr0(b, 3 * g + 2);
    SextetsOfWord(p, q, r);
    DigitIs(Sextet0(p));
    DigitIs(Sextet1(p, q));
    DigitIs(Sextet2(q, r));
    DigitIs(Sextet3(r));
    if |b| >= 3 * g + 3 {
      FullGroupIs(b, g);
    } else {
      LastGroupIs(b, g);
    }
  }

  /** Both forms of the last two digits are read. */
  lemma DigitsAreRead(c: int, v: Sextet)
    ensures IsDigit(c, v) ==> ValueOf(c) == v
    ensures c == '-' as int ==> ValueOf(c) == 62
    ensures c == '_' as int ==> ValueOf(c) == 63
    ensures InAlphabet(c) <==> IsDigit(c, ValueOf(c))
    ensures !InAlphabet(c) && c != '-' as int && c != '_' as int ==> ValueOf(c) == 0
  {
  }

  /** A group of four digits gives the three bytes of its 24 bits. */
  lemma DecodedGroupIs(s: seq<int>, g: nat)
    requires |s| % 4 == 0 && 4 * g + 4 <= |s|
    requires 4 * g + 4 == |s| ==> s[|s| - 2] != '=' as int && s[|s| - 1] != '=' as int
    ensures Decoded(s).Ok? && |Decoded(s).bytes| >= 3 * g + 3
    ensures Bits24(Decoded(s).bytes, g)
         == ValueOf(s[4 * g]) * 0x4_0000 + ValueOf(s[4 * g + 1]) * 0x1000
            + ValueOf(s[4 * g + 2]) * 64 + ValueOf(s[4 * g + 3])
  {
    var b := DecodedBy(ValueOf, s);
    var front := Groups(TriplesBy(ValueOf), s, 0, FullGroups(s));
    GroupsLength(TriplesBy(ValueOf), s, 0, FullGroups(s));
    GroupsAt(TriplesBy(ValueOf), s, FullGroups(s), g);
    ThreeInFront(front, Rest(ValueOf, s), g);
    WordOfTriple(ValueOf(s[4 * g]), ValueOf(s[4 * g + 1]), ValueOf(s[4 * g + 2]), ValueOf(s[4 * g + 3]));
    assert ThreeAt(b, g) == Triple(ValueOf, FourAt(s, g));
  }

  function Pair(a: int, b: int): int {
    a * 0x100 + b
  }

  /** A last group with padding gives the one or two bytes that its digits hold in full. */
  lemma DecodedEndIs(s: seq<int>)
    requires |s| % 4 == 0 && |s| > 0 && (s[|s| - 1] == '=' as int || s[|s| - 2] == '=' as int)
    ensures Decoded(s).Ok?
    ensures var b, k := Decoded(s).bytes, |s| / 4 - 1;
            var f := FourAt(s, k);
            if f.r == '=' as int then
              |b| == 3 * k + 1 && b[3 * k] == (ValueOf(f.p) * 64 + ValueOf(f.q)) / 16
            else
              && |b| == 3 * k + 2
              && Pair(b[3 * k], b[3 * k + 1]) == (ValueOf(f.p) * 0x1000 + ValueOf(f.q) * 64 + ValueOf(f.r)) / 4
  {
    var k := |s| / 4 - 1;
    var f := FourAt(s, k);
    PaddingOfLast(s, k);
    GroupsLength(TriplesBy(ValueOf), s, 0, k);
    EndBytes(ValueOf(f.p), ValueOf(f.q), ValueOf(f.r));
  }

  lemma EndBytes(p: Sextet, q: Sextet, r: Sextet)
    ensures Byte0(p, q) == (p * 64 + q) / 16
    ensures Pair(Byte0(p, q), Byte1(q, r)) == (p * 0x1000 + q * 64 + r) / 4
  {
  }

  lemma WordOfTriple(p: Sextet, q: Sextet, r: Sextet, t: Sextet)
    ensures Word(Byte0(p, q), Byte1(q, r), Byte2(r, t)) == Joined(p, q, r, t)
  {
    var q1, q0, r1, r0 := q / 16, q % 16, r / 4, r % 4;
    assert q == q1 * 16 + q0 && r == r1 * 4 + r0;
    JoinedAsBytes(p, q1, q0, r1, r0, t);
  }
}
