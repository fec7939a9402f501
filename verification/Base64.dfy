/** base64-js: the encoder in chunks, and the decoder with its lookup table. Characters are their codes;
    shifts and masks are written as divisions and remainders by powers of two. The tables are arguments: u
    gives the character of a sextet, v the sextet of a character. */
module Base64 {
  import opened Basics

  type Sextet = v: int | 0 <= v < 64

  datatype Result = Ok(bytes: seq<Byte>) | InvalidLength

  const PAD := 61

  // A group of bytes and a group of characters.
  datatype Three = Three(a: Byte, b: Byte, c: Byte) {
    function List(): (l: seq<Byte>) ensures |l| == 3 { [a, b, c] }
  }

  datatype Four = Four(p: int, q: int, r: int, t: int) {
    function List(): (l: seq<int>) ensures |l| == 4 { [p, q, r, t] }
  }

  // ---------------------------------------------------------------- bytes and sextets

  // Three bytes hold four sextets: six bits, two and four, four and two, six.

  function Sextet0(a: Byte): Sextet {
    a / 4
  }

  function Sextet1(a: Byte, b: Byte): Sextet {
    (a % 4) * 16 + b / 16
  }

  function Sextet2(b: Byte, c: Byte): Sextet {
    (b % 16) * 4 + c / 64
  }

  function Sextet3(c: Byte): Sextet {
    c % 64
  }

  function Byte0(p: Sextet, q: Sextet): Byte {
    p * 4 + q / 16
  }

  function Byte1(q: Sextet, r: Sextet): Byte {
    (q % 16) * 16 + r / 4
  }

  function Byte2(r: Sextet, t: Sextet): Byte {
    (r % 4) * 64 + t
  }

  lemma BytesOfSextets(a: Byte, b: Byte, c: Byte)
    ensures Byte0(Sextet0(a), Sextet1(a, b)) == a
    ensures Byte1(Sextet1(a, b), Sextet2(b, c)) == b
    ensures Byte2(Sextet2(b, c), Sextet3(c)) == c
  {
  }

  lemma SextetsOfBytes(p: Sextet, q: Sextet, r: Sextet, t: Sextet)
    ensures Sextet0(Byte0(p, q)) == p
    ensures Sextet1(Byte0(p, q), Byte1(q, r)) == q
    ensures Sextet2(Byte1(q, r), Byte2(r, t)) == r
    ensures Sextet3(Byte2(r, t)) == t
  {
  }

  lemma SextetsEnd(a: Byte)
    ensures Sextet1(a, 0) % 16 == 0 && Sextet2(a, 0) % 4 == 0
  {
  }

  lemma BytesEnd(p: Sextet)
    ensures p % 16 == 0 ==> Byte1(p, 0) == 0
    ensures p % 4 == 0 ==> Byte2(p, 0) == 0
  {
  }

  // The same through words of 24, 16 and 12 bits.

  function Word(a: int, b: int, c: int): int {
    a * 65536 + b * 256 + c
  }

  function Joined(p: int, q: int, r: int, t: int): int {
    p * 0x4_0000 + q * 4096 + r * 64 + t
  }

  lemma SextetsOfWord(a: Byte, b: Byte, c: Byte)
    ensures var x := Word(a, b, c);
            && x / 0x4_0000 % 64 == Sextet0(a) && x / 4096 % 64 == Sextet1(a, b)
            && x / 64 % 64 == Sextet2(b, c) && x % 64 == Sextet3(c)
  {
    var x := Word(a, b, c);
    assert x / 4096 == a * 16 + b / 16;
    assert x / 64 == a * 1024 + b * 4 + c / 64;
    assert x / 0x4_0000 == a / 4;
  }

  lemma By256(x: int, r: int)
    requires 0 <= r < 256
    ensures (x * 256 + r) / 256 == x && (x * 256 + r) % 256 == r
  {
  }

  lemma JoinedAsBytes(p: int, q1: int, q0: int, r1: int, r0: int, t: int)
    ensures Joined(p, q1 * 16 + q0, r1 * 4 + r0, t) == ((p * 4 + q1) * 256 + (q0 * 16 + r1)) * 256 + (r0 * 64 + t)
  {
  }

  lemma WordOfBytes(x: int, b0: int, b1: int, b2: int)
    requires 0 <= b0 < 256 && 0 <= b1 < 256 && 0 <= b2 < 256 && x == (b0 * 256 + b1) * 256 + b2
    ensures x / 65536 % 256 == b0 && x / 256 % 256 == b1 && x % 256 == b2
  {
    By256(b0 * 256 + b1, b2);
    By256(b0, b1);
  }

  lemma BytesOfWord(p: int, q: int, r: int, t: int)
    requires 0 <= p < 64 && 0 <= q < 64 && 0 <= r < 64 && 0 <= t < 64
    ensures var x := Joined(p, q, r, t);
            x / 65536 % 256 == Byte0(p, q) && x / 256 % 256 == Byte1(q, r) && x % 256 == Byte2(r, t)
  {
    var q1, q0, r1, r0 := q / 16, q % 16, r / 4, r % 4;
    assert q == q1 * 16 + q0 && r == r1 * 4 + r0;
    JoinedAsBytes(p, q1, q0, r1, r0, t);
    WordOfBytes(Joined(p, q, r, t), p * 4 + q1, q0 * 16 + r1, r0 * 64 + t);
  }

  lemma SextetsOfByte(b: int)
    requires 0 <= b < 0x100
    ensures b / 4 == Sextet0(b) && b * 16 % 64 == Sextet1(b, 0)
  {
  }

  lemma SextetsOfShort(a: int, b: int)
    requires 0 <= a < 0x100 && 0 <= b < 0x100
    ensures var x := a * 256 + b;
            x / 1024 == Sextet0(a) && x / 16 % 64 == Sextet1(a, b) && x * 4 % 64 == Sextet2(b, 0)
  {
    ShortDigits(a * 256 + b, a / 4, a % 4, b / 16, b % 16);
  }

  lemma By64(x: int, r: int)
    requires 0 <= r < 64
    ensures (x * 64 + r) / 64 == x && (x * 64 + r) % 64 == r
  {
  }

  lemma By16(x: int, r: int)
    requires 0 <= r < 16
    ensures (x * 16 + r) / 16 == x
  {
  }

  lemma By1024(x: int, r: int)
    requires 0 <= r < 1024
    ensures (x * 1024 + r) / 1024 == x
  {
  }

  lemma ShortDigits(x: int, a1: int, a0: int, b1: int, b0: int)
    requires 0 <= a0 < 4 && 0 <= b1 < 16 && 0 <= b0 < 16 && x == (a1 * 4 + a0) * 256 + b1 * 16 + b0
    ensures x / 1024 == a1 && x / 16 % 64 == a0 * 16 + b1 && x * 4 % 64 == b0 * 4
  {
    By1024(a1, a0 * 256 + b1 * 16 + b0);
    By16(a1 * 64 + a0 * 16 + b1, b0);
    By64(a1, a0 * 16 + b1);
    By64(a1 * 64 + a0 * 16 + b1, b0 * 4);
  }

  lemma BytesOfShort(p: int, q: int, r: int)
    requires 0 <= p < 64 && 0 <= q < 64 && 0 <= r < 64
    ensures (p * 4 + q / 16) % 256 == Byte0(p, q)
    ensures var x := p * 1024 + q * 16 + r / 4; x / 256 % 256 == Byte0(p, q) && x % 256 == Byte1(q, r)
  {
    var x := p * 1024 + q * 16 + r / 4;
    assert x / 256 == p * 4 + q / 16;
  }

  // ---------------------------------------------------------------- encoding

  function ThreeAt(b: seq<Byte>, k: nat): Three
    requires 3 * k + 3 <= |b|
  {
    Three(b[3 * k], b[3 * k + 1], b[3 * k + 2])
  }

  /** Groups i to j of three bytes, each turned into four characters. */
  function Triples(f: Three -> Four, b: seq<Byte>, i: nat, j: nat): seq<int>
    requires i <= j && 3 * j <= |b|
    decreases j - i
  {
    if i == j then [] else Triples(f, b, i, j - 1) + f(ThreeAt(b, j - 1)).List()
  }

  /** Three bytes as four characters. */
  function Quad(u: Sextet -> int, g: Three): Four {
    Four(u(Sextet0(g.a)), u(Sextet1(g.a, g.b)), u(Sextet2(g.b, g.c)), u(Sextet3(g.c)))
  }

  function Quads(u: Sextet -> int): Three -> Four {
    (g: Three) => Quad(u, g)
  }

  /** Two or three sextets with padding, for one or two bytes. */
  function PadOne(u: Sextet -> int, p: Sextet, q: Sextet): Four {
    Four(u(p), u(q), PAD, PAD)
  }

  function PadTwo(u: Sextet -> int, p: Sextet, q: Sextet, r: Sextet): Four {
    Four(u(p), u(q), u(r), PAD)
  }

  function EndOfOne(u: Sextet -> int, a: Byte): Four {
    PadOne(u, Sextet0(a), Sextet1(a, 0))
  }

  function EndOfTwo(u: Sextet -> int, a: Byte, b: Byte): Four {
    PadTwo(u, Sextet0(a), Sextet1(a, b), Sextet2(b, 0))
  }

  function Tail(u: Sextet -> int, b: seq<Byte>): seq<int> {
    var n := |b|;
    if n % 3 == 1 then EndOfOne(u, b[n - 1]).List()
    else if n % 3 == 2 then EndOfTwo(u, b[n - 2], b[n - 1]).List()
    else []
  }

  function EncodedBy(u: Sextet -> int, b: seq<Byte>): seq<int> {
    Triples(Quads(u), b, 0, |b| / 3) + Tail(u, b)
  }

  lemma {:induction false} TriplesLength(f: Three -> Four, b: seq<Byte>, i: nat, j: nat)
    requires i <= j && 3 * j <= |b|
    ensures |Triples(f, b, i, j)| == 4 * (j - i)
    decreases j - i
  {
    if i < j {
      TriplesLength(f, b, i, j - 1);
    }
  }

  lemma {:induction false} TriplesSplit(f: Three -> Four, b: seq<Byte>, i: nat, m: nat, j: nat)
    requires i <= m <= j && 3 * j <= |b|
    ensures Triples(f, b, i, j) == Triples(f, b, i, m) + Triples(f, b, m, j)
    decreases j - m
  {
    if m < j {
      TriplesSplit(f, b, i, m, j - 1);
      Assoc(Triples(f, b, i, m), Triples(f, b, m, j - 1), f(ThreeAt(b, j - 1)).List());
    }
  }

  /** `s(e)`: a group becomes a word, and the word four characters. */
  method EncodeWord(u: Sextet -> int, x: int, ghost g: Three) returns (out: Four)
    requires x == Word(g.a, g.b, g.c)
    ensures out == Quad(u, g)
  {
    SextetsOfWord(g.a, g.b, g.c);
    out := Four(u(x / 0x4_0000 % 64), u(x / 4096 % 64), u(x / 64 % 64), u(x % 64));
  }

  /** `o(e, t, r)`: one chunk. */
  method EncodeChunk(u: Sextet -> int, b: seq<Byte>, t: nat, r: nat, ghost i: nat, ghost j: nat)
    returns (out: seq<int>)
    requires t == 3 * i && r == 3 * j && i <= j && r <= |b|
    ensures out == Triples(Quads(u), b, i, j)
  {
    out := [];
    var k := t;
    ghost var g := i;
    while k < r
      invariant i <= g <= j && k == 3 * g
      invariant out == Triples(Quads(u), b, i, g)
      decreases j - g
    {
      out := EncodeGroup(u, b, k, out, i, g);
      k, g := k + 3, g + 1;
    }
  }

  method EncodeGroup(u: Sextet -> int, b: seq<Byte>, k: nat, done: seq<int>, ghost i: nat, ghost g: nat)
    returns (out: seq<int>)
    requires i <= g && k == 3 * g && k + 3 <= |b| && done == Triples(Quads(u), b, i, g)
    ensures out == Triples(Quads(u), b, i, g + 1)
  {
    var four := EncodeWord(u, Word(b[k], b[k + 1], b[k + 2]), ThreeAt(b, g));
    out := done + four.List();
  }

  method EncodeTail(u: Sextet -> int, b: seq<Byte>) returns (out: seq<int>)
    ensures out == Tail(u, b)
  {
    var n := |b|;
    out := [];
    if n % 3 == 1 {
      var x: int := b[n - 1];
      SextetsOfByte(x);
      out := [u(x / 4), u(x * 16 % 64), PAD, PAD];
    } else if n % 3 == 2 {
      var x: int := Word(0, b[n - 2], b[n - 1]);
      SextetsOfShort(b[n - 2], b[n - 1]);
      out := [u(x / 1024), u(x / 16 % 64), u(x * 4 % 64), PAD];
    }
  }

  const MAX_CHUNK := 16383  // a multiple of 3

  const CHUNK_GROUPS := 5461

  /** The chunks of MAX_CHUNK bytes up to `end`. */
  method EncodeChunks(u: Sextet -> int, b: seq<Byte>, end: nat, ghost groups: nat) returns (out: seq<int>)
    requires end == 3 * groups && end <= |b|
    ensures out == Triples(Quads(u), b, 0, groups)
  {
    out := [];
    var k := 0;
    ghost var g := 0;
    while k < end
      invariant g <= groups && (k == 3 * g || (k > end && g == groups))
      invariant out == Triples(Quads(u), b, 0, g)
      decreases end - k
    {
      var chunkEnd := if k + MAX_CHUNK > end then end else k + MAX_CHUNK;
      ghost var h := if k + MAX_CHUNK > end then groups else g + CHUNK_GROUPS;
      var chunk := EncodeChunk(u, b, k, chunkEnd, g, h);
      TriplesSplit(Quads(u), b, 0, g, h);
      out := out + chunk;
      k, g := k + MAX_CHUNK, h;
    }
  }

  /** `fromByteArray`: the chunks, then the tail. */
  method FromByteArray(u: Sextet -> int, b: seq<Byte>) returns (out: seq<int>)
    ensures out == EncodedBy(u, b)
  {
    var end := |b| - |b| % 3;
    out := EncodeChunks(u, b, end, |b| / 3);
    var tail := EncodeTail(u, b);
    out := out + tail;
  }

  // ---------------------------------------------------------------- decoding

  /** The number of padding characters: only the last two places count. */
  function Padding(s: seq<int>): (n: nat)
    ensures n <= 2
  {
    if |s| >= 2 && s[|s| - 2] == PAD then 2 else if |s| >= 1 && s[|s| - 1] == PAD then 1 else 0
  }

  function FourAt(s: seq<int>, k: nat): Four
    requires 4 * k + 4 <= |s|
  {
    Four(s[4 * k], s[4 * k + 1], s[4 * k + 2], s[4 * k + 3])
  }

  /** Groups i to j of four characters, each turned into three bytes. */
  function Groups(h: Four -> Three, s: seq<int>, i: nat, j: nat): seq<Byte>
    requires i <= j && 4 * j <= |s|
    decreases j - i
  {
    if i == j then [] else Groups(h, s, i, j - 1) + h(FourAt(s, j - 1)).List()
  }

  /** Four characters as three bytes. */
  function Triple(v: int -> Sextet, g: Four): Three {
    Three(Byte0(v(g.p), v(g.q)), Byte1(v(g.q), v(g.r)), Byte2(v(g.r), v(g.t)))
  }

  function TriplesBy(v: int -> Sextet): Four -> Three {
    (g: Four) => Triple(v, g)
  }

  /** The bytes in the last group. */
  function OneByte(v: int -> Sextet, g: Four): seq<Byte> {
    [Byte0(v(g.p), v(g.q))]
  }

  function TwoBytes(v: int -> Sextet, g: Four): seq<Byte> {
    [Byte0(v(g.p), v(g.q)), Byte1(v(g.q), v(g.r))]
  }

  /** The number of groups that are decoded in full. */
  function FullGroups(s: seq<int>): (g: nat)
    ensures 4 * g <= |s|
  {
    if Padding(s) > 0 && |s| >= 4 then |s| / 4 - 1 else |s| / 4
  }

  function Rest(v: int -> Sextet, s: seq<int>): seq<Byte>
    requires |s| % 4 == 0
  {
    if |s| == 0 || Padding(s) == 0 then []
    else if Padding(s) == 2 then OneByte(v, FourAt(s, |s| / 4 - 1))
    else TwoBytes(v, FourAt(s, |s| / 4 - 1))
  }

  function DecodedBy(v: int -> Sextet, s: seq<int>): seq<Byte>
    requires |s| % 4 == 0
  {
    Groups(TriplesBy(v), s, 0, FullGroups(s)) + Rest(v, s)
  }

  function ResultBy(v: int -> Sextet, s: seq<int>): Result {
    if |s| % 4 == 0 then Ok(DecodedBy(v, s)) else InvalidLength
  }

  lemma {:induction false} GroupsLength(h: Four -> Three, s: seq<int>, i: nat, j: nat)
    requires i <= j && 4 * j <= |s|
    ensures |Groups(h, s, i, j)| == 3 * (j - i)
    decreases j - i
  {
    if i < j {
      GroupsLength(h, s, i, j - 1);
    }
  }

  method StoreWord(out: array<Byte>, n: nat, x: int, ghost p: Sextet, ghost q: Sextet, ghost r: Sextet, ghost t: Sextet)
    requires n + 3 <= out.Length && x == Joined(p, q, r, t)
    modifies out
    ensures out[..n + 3] == old(out[..n]) + [Byte0(p, q), Byte1(q, r), Byte2(r, t)]
  {
    BytesOfWord(p, q, r, t);
    StoreThree(out, n, x / 65536 % 256, x / 256 % 256, x % 256);
  }

  method StoreThree(out: array<Byte>, n: nat, a: Byte, b: Byte, c: Byte)
    requires n + 3 <= out.Length
    modifies out
    ensures out[..n + 3] == old(out[..n]) + [a, b, c]
  {
    out[n], out[n + 1], out[n + 2] := a, b, c;
  }

  /** A group becomes a word, and the word three bytes. */
  method StoreTriple(v: int -> Sextet, out: array<Byte>, n: nat, g: Four)
    requires n + 3 <= out.Length
    modifies out
    ensures out[..n + 3] == old(out[..n]) + Triple(v, g).List()
  {
    StoreWord(out, n, Joined(v(g.p), v(g.q), v(g.r), v(g.t)), v(g.p), v(g.q), v(g.r), v(g.t));
  }

  /** The loop of the decoder: the full groups go to the front of the output. */
  method DecodeGroups(v: int -> Sextet, s: seq<int>, end: nat, out: array<Byte>, ghost groups: nat) returns (n: nat)
    requires end == 4 * groups && end <= |s| && 3 * groups <= out.Length
    modifies out
    ensures n == 3 * groups && out[..n] == Groups(TriplesBy(v), s, 0, groups)
  {
    var t := 0;
    n := 0;
    ghost var g := 0;
    while t < end
      invariant t == 4 * g && n == 3 * g && g <= groups
      invariant out[..n] == Groups(TriplesBy(v), s, 0, g)
    {
      DecodeGroup(v, s, t, out, n, g);
      t, n, g := t + 4, n + 3, g + 1;
    }
  }

  method DecodeGroup(v: int -> Sextet, s: seq<int>, t: nat, out: array<Byte>, n: nat, ghost g: nat)
    requires t == 4 * g && t + 4 <= |s| && n + 3 <= out.Length && out[..n] == Groups(TriplesBy(v), s, 0, g)
    modifies out
    ensures out[..n + 3] == Groups(TriplesBy(v), s, 0, g + 1)
  {
    StoreTriple(v, out, n, Four(s[t], s[t + 1], s[t + 2], s[t + 3]));
  }

  lemma Lengths(s: seq<int>)
    requires |s| % 4 == 0
    ensures 4 * FullGroups(s) == if Padding(s) > 0 then |s| - 4 else |s|
    ensures 3 * |s| / 4 - Padding(s) == 3 * FullGroups(s) + if Padding(s) > 0 then 3 - Padding(s) else 0
  {
  }

  /** `toByteArray` */
  method ToByteArray(v: int -> Sextet, s: seq<int>) returns (r: Result)
    ensures r == ResultBy(v, s)
  {
    if |s| % 4 > 0 {
      return InvalidLength;
    }
    var n, padding := |s|, Padding(s);
    Lengths(s);
    var out := new Byte[3 * n / 4 - padding];
    var end := if padding > 0 then n - 4 else n;
    var h := DecodeGroups(v, s, end, out, FullGroups(s));
    if padding > 0 {
      StoreRest(v, s, out, h);
    }
    assert out[..] == out[..h] + out[h..];
    return Ok(out[..]);
  }

  method StoreOne(out: array<Byte>, n: nat, p: Sextet, q: Sextet)
    requires n + 1 == out.Length
    modifies out
    ensures out[..n] == old(out[..n]) && out[n..] == [Byte0(p, q)]
  {
    BytesOfShort(p, q, 0);
    out[n] := (p * 4 + q / 16) % 256;
  }

  method StoreTwo(out: array<Byte>, n: nat, p: int, q: int, r: int)
    requires n + 2 == out.Length && 0 <= p < 64 && 0 <= q < 64 && 0 <= r < 64
    modifies out
    ensures out[..n] == old(out[..n]) && out[n..] == [Byte0(p, q), Byte1(q, r)]
  {
    BytesOfShort(p, q, r);
    var x: int := p * 1024 + q * 16 + r / 4;
    out[n] := x / 256 % 256;
    out[n + 1] := x % 256;
  }

  /** The last one or two bytes. */
  method StoreRest(v: int -> Sextet, s: seq<int>, out: array<Byte>, n: nat)
    requires |s| % 4 == 0 && Padding(s) > 0 && n + 3 - Padding(s) == out.Length
    modifies out
    ensures out[..n] == old(out[..n]) && out[n..] == Rest(v, s)
  {
    var k := |s| - 4;
    assert FourAt(s, |s| / 4 - 1) == Four(s[k], s[k + 1], s[k + 2], s[k + 3]);
    if Padding(s) == 2 {
      StoreOne(out, n, v(s[k]), v(s[k + 1]));
    } else {
      StoreTwo(out, n, v(s[k]), v(s[k + 1]), v(s[k + 2]));
    }
  }
}
