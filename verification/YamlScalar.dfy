/** js-yaml's printer and scanner of double-quoted scalars, over strings of UTF-16 code units. */
module YamlScalar {
  import opened Basics

  type Code = c: int | 0 <= c < 0x1_0000

  // ---------------------------------------------------------------- the printer

  /** The printer's table of named escapes; empty where it has no entry. */
  function Named(c: Code): seq<Code> {
    if c == 0 then [92, 48]
    else if c == 7 then [92, 97]
    else if c == 8 then [92, 98]
    else if c == 9 then [92, 116]
    else if c == 10 then [92, 110]
    else if c == 11 then [92, 118]
    else if c == 12 then [92, 102]
    else if c == 13 then [92, 114]
    else if c == 27 then [92, 101]
    else if c == 34 then [92, 34]
    else if c == 92 then [92, 92]
    else if c == 133 then [92, 78]
    else if c == 160 then [92, 95]
    else if c == 8232 then [92, 76]
    else if c == 8233 then [92, 80]
    else []
  }

  predicate Printable(c: Code) {
    || 32 <= c <= 126
    || (161 <= c <= 55295 && c != 8232 && c != 8233)
    || (57344 <= c <= 65533 && c != 65279)
  }

  function UpperDigit(d: nat): Code
    requires d < 16
  {
    if d < 10 then 48 + d else 65 + d - 10
  }

  /** `toString(16).toUpperCase()` */
  function Hex(n: nat): (t: seq<Code>)
    ensures |t| > 0
  {
    if n < 16 then [UpperDigit(n)] else Hex(n / 16) + [UpperDigit(n % 16)]
  }

  function Repeat(c: Code, n: nat): seq<Code> {
    seq(n, _ => c)
  }

  function Padded(t: seq<Code>, width: nat): seq<Code> {
    if |t| < width then Repeat(48, width - |t|) + t else t
  }

  function HexEscape(c: Code): seq<Code> {
    if c <= 255 then [92, 120] + Padded(Hex(c), 2) else [92, 117] + Padded(Hex(c), 4)
  }

  /** What the printer writes for one code unit. */
  function Piece(c: Code): seq<Code> {
    if Named(c) == [] && Printable(c) then [c]
    else if Named(c) != [] then Named(c)
    else HexEscape(c)
  }

  function FlatMap(f: Code -> seq<Code>, s: seq<Code>): seq<Code> {
    if s == [] then [] else f(s[0]) + FlatMap(f, s[1..])
  }

  lemma {:induction false} FlatMapAppend(f: Code -> seq<Code>, s: seq<Code>, c: Code)
    ensures FlatMap(f, s + [c]) == FlatMap(f, s) + f(c)
  {
    if s == [] {
      assert [] + [c] == [c];
    } else {
      FlatMapAppend(f, s[1..], c);
      assert (s + [c])[1..] == s[1..] + [c];
    }
  }

  function Dump(s: seq<Code>): seq<Code> {
    FlatMap(Piece, s)
  }

  method EscapeString(s: seq<Code>) returns (out: seq<Code>)
    ensures out == Dump(s)
  {
    out := [];
    for k := 0 to |s|
      invariant out == Dump(s[..k])
    {
      var c := s[k];
      var escape := Named(c);
      if escape == [] && Printable(c) {
        out := out + [c];
      } else if escape != [] {
        out := out + escape;
      } else {
        out := out + HexEscape(c);
      }
      FlatMapAppend(Piece, s[..k], c);
      assert s[..k + 1] == s[..k] + [c];
    }
    assert s[..|s|] == s;
  }

  // ---------------------------------------------------------------- what the scanner is to compute

  function CodeAt(input: seq<Code>, p: nat): int {
    if p < |input| then input[p] else -1
  }

  predicate IsBreak(c: int) { c == 10 || c == 13 }

  predicate IsBlank(c: int) { c == 9 || c == 32 }

  predicate IsJson(c: int) { c == 9 || 32 <= c <= 0x10FFFF }

  /** The value of a hexadecimal digit of either case, or -1. */
  function DigitValue(c: int): (d: int)
    ensures -1 <= d < 16
  {
    if 48 <= c <= 57 then c - 48
    else if 97 <= c <= 102 then c - 97 + 10
    else if 65 <= c <= 70 then c - 65 + 10
    else -1
  }

  /** The number of digits that follow the letter of a hexadecimal escape. */
  function EscapeLength(c: int): nat {
    if c == 120 then 2 else if c == 117 then 4 else if c == 85 then 8 else 0
  }

  /** The code unit of a one-letter escape. */
  function Simple(c: int): Option<Code> {
    if c == 48 then Some(0)
    else if c == 97 then Some(7)
    else if c == 98 then Some(8)
    else if c == 116 then Some(9)
    else if c == 9 then Some(9)
    else if c == 110 then Some(10)
    else if c == 118 then Some(11)
    else if c == 102 then Some(12)
    else if c == 114 then Some(13)
    else if c == 101 then Some(27)
    else if c == 32 then Some(32)
    else if c == 34 then Some(34)
    else if c == 47 then Some(47)
    else if c == 92 then Some(92)
    else if c == 78 then Some(133)
    else if c == 95 then Some(160)
    else if c == 76 then Some(8232)
    else if c == 80 then Some(8233)
    else None
  }

  /** `x << 4` on 32-bit integers. */
  function Shift4(x: int): int {
    var y := (x * 16) % 0x1_0000_0000;
    if y >= 0x8000_0000 then y - 0x1_0000_0000 else y
  }

  /** `k` hexadecimal digits from `p`, after those that make `acc`. */
  function HexAt(input: seq<Code>, p: nat, k: nat, acc: int): Option<int>
    decreases k
  {
    if k == 0 then Some(acc)
    else
      var d := DigitValue(CodeAt(input, p));
      if d < 0 then None else HexAt(input, p + 1, k - 1, Shift4(acc) + d)
  }

  /** The code units of a scanned number; `String.fromCharCode` keeps 16 bits. */
  function CodeUnits(v: int): seq<Code> {
    if v <= 65535 then [v % 0x1_0000]
    else [((v - 65536) / 1024 + 55296) % 0x1_0000, (v - 65536) % 1024 + 56320]
  }

  function SkipBlanks(input: seq<Code>, p: nat): (q: nat)
    ensures p <= q && !IsBlank(CodeAt(input, q))
    decreases |input| - p
  {
    if IsBlank(CodeAt(input, p)) then SkipBlanks(input, p + 1) else p
  }

  function AfterBreak(input: seq<Code>, p: nat): nat {
    if CodeAt(input, p) == 13 && CodeAt(input, p + 1) == 10 then p + 2 else p + 1
  }

  // The end of a stretch of blanks and line breaks, its number of breaks, and the start of its last line.
  datatype Gap = Gap(end: nat, breaks: nat, lineStart: nat)

  function SkipGap(input: seq<Code>, p: nat, lineStart: nat): (g: Gap)
    ensures p <= g.end
    ensures IsBreak(CodeAt(input, p)) ==> p < g.end
    decreases |input| - p
  {
    var q := SkipBlanks(input, p);
    if !IsBreak(CodeAt(input, q)) then Gap(q, 0, lineStart)
    else
      var rest := SkipGap(input, AfterBreak(input, q), AfterBreak(input, q));
      rest.(breaks := rest.breaks + 1)
  }

  /** Line folding: one break is a space, each further break stands for itself. */
  function Folded(breaks: nat): seq<Code> {
    if breaks == 1 then [32] else if breaks > 1 then Repeat(10, breaks - 1) else []
  }

  /** `---` or `...` at `p`, followed by white space or the end. */
  predicate DocumentSeparator(input: seq<Code>, p: nat) {
    && (CodeAt(input, p) == 45 || CodeAt(input, p) == 46)
    && CodeAt(input, p + 1) == CodeAt(input, p)
    && CodeAt(input, p + 2) == CodeAt(input, p)
    && (CodeAt(input, p + 3) == 0 || IsBlank(CodeAt(input, p + 3)) || IsBreak(CodeAt(input, p + 3)))
  }

  // The text of a scalar, the place after its closing quote and the start of the line of that place.
  datatype Scalar = Scalar(text: seq<Code>, end: nat, lineStart: nat)

  function Prepend(text: seq<Code>, rest: Option<Scalar>): Option<Scalar> {
    match rest
    case None => None
    case Some(s) => Some(s.(text := text + s.text))
  }

  /** The rest of a double-quoted scalar from `p`, one item at a time; None is a scanner error. */
  function Scan(input: seq<Code>, p: nat, lineStart: nat): Option<Scalar>
    decreases |input| - p
  {
    var c := CodeAt(input, p);
    if c <= 0 then None
    else if c == 34 then Some(Scalar([], p + 1, lineStart))
    else if c == 92 then
      var d := CodeAt(input, p + 1);
      if IsBreak(d) then
        var g := SkipGap(input, p + 1, lineStart);
        Scan(input, g.end, g.lineStart)
      else if Simple(d).Some? then Prepend([Simple(d).value], Scan(input, p + 2, lineStart))
      else if EscapeLength(d) > 0 then
        var v := HexAt(input, p + 2, EscapeLength(d), 0);
        if v.None? then None
        else Prepend(CodeUnits(v.value), Scan(input, p + 2 + EscapeLength(d), lineStart))
      else None
    else if IsBreak(c) then
      var g := SkipGap(input, p, lineStart);
      Prepend(Folded(g.breaks), Scan(input, g.end, g.lineStart))
    else if p == lineStart && DocumentSeparator(input, p) then None
    else if IsJson(c) then Prepend([c], Scan(input, p + 1, lineStart))
    else None
  }

  // ---------------------------------------------------------------- the round trip

  /** `part` stands in the input at `p`. */
  predicate StandsAt(input: seq<Code>, p: nat, part: seq<Code>) {
    p + |part| <= |input| && input[p..p + |part|] == part
  }

  lemma {:induction false} HexDigits(n: nat)
    ensures n < 16 ==> |Hex(n)| == 1
    ensures n < 0x100 ==> |Hex(n)| <= 2
    ensures n < 0x1000 ==> |Hex(n)| <= 3
    ensures n < 0x1_0000 ==> |Hex(n)| <= 4
  {
    if n >= 16 {
      HexDigits(n / 16);
    }
  }

  /** The number that a string of upper-case digits stands for. */
  function Number(t: seq<Code>): int {
    if t == [] then 0 else Number(t[..|t| - 1]) * 16 + DigitValue(t[|t| - 1])
  }

  predicate AllDigits(t: seq<Code>) {
    forall k :: 0 <= k < |t| ==> DigitValue(t[k]) >= 0
  }

  lemma {:induction false} HexIsNumber(n: nat)
    ensures AllDigits(Hex(n)) && Number(Hex(n)) == n
  {
    if n >= 16 {
      HexIsNumber(n / 16);
      assert Hex(n)[..|Hex(n)| - 1] == Hex(n / 16);
    }
  }

  lemma {:induction false} PaddingKeepsNumber(t: seq<Code>, k: nat)
    requires AllDigits(t)
    ensures AllDigits(Repeat(48, k) + t) && Number(Repeat(48, k) + t) == Number(t)
  {
    var z := Repeat(48, k);
    if t != [] {
      PaddingKeepsNumber(t[..|t| - 1], k);
      assert (z + t)[..|z + t| - 1] == z + t[..|t| - 1];
    } else if k > 0 {
      PaddingKeepsNumber([], k - 1);
      assert z + t == z && z[..k - 1] == Repeat(48, k - 1) && Repeat(48, k - 1) + [] == Repeat(48, k - 1);
    }
  }

  /** Reading one digit more. */
  lemma {:induction false} HexAtLast(input: seq<Code>, p: nat, k: nat, acc: int)
    ensures HexAt(input, p, k + 1, acc) ==
              match HexAt(input, p, k, acc)
              case None => None
              case Some(v) => var d := DigitValue(CodeAt(input, p + k)); if d < 0 then None else Some(Shift4(v) + d)
    decreases k
  {
    if k > 0 {
      var d := DigitValue(CodeAt(input, p));
      if d >= 0 {
        HexAtLast(input, p + 1, k - 1, Shift4(acc) + d);
      }
    }
  }

  lemma {:induction false} HexAtReads(input: seq<Code>, p: nat, t: seq<Code>)
    requires StandsAt(input, p, t) && AllDigits(t) && Number(t) < 0x8000_0000
    ensures 0 <= Number(t) && HexAt(input, p, |t|, 0) == Some(Number(t))
  {
    if t != [] {
      var k := |t| - 1;
      NumberNatural(t[..k]);
      assert input[p..p + k] == t[..k];
      HexAtReads(input, p, t[..k]);
      HexAtLast(input, p, k, 0);
      assert CodeAt(input, p + k) == t[k];
    }
  }

  lemma {:induction false} NumberNatural(t: seq<Code>)
    requires AllDigits(t)
    ensures Number(t) >= 0
  {
    if t != [] {
      NumberNatural(t[..|t| - 1]);
    }
  }

  lemma StandsSplit(input: seq<Code>, p: nat, a: seq<Code>, b: seq<Code>)
    requires StandsAt(input, p, a + b)
    ensures StandsAt(input, p, a) && StandsAt(input, p + |a|, b)
  {
    var whole := input[p..p + |a + b|];
    assert input[p..p + |a|] == whole[..|a|] && input[p + |a|..p + |a| + |b|] == whole[|a|..];
  }

  lemma StandsCodes(input: seq<Code>, p: nat, part: seq<Code>, k: nat)
    requires StandsAt(input, p, part) && k < |part|
    ensures CodeAt(input, p + k) == part[k]
  {
    assert input[p..p + |part|][k] == input[p + k];
  }

  /** The digits of an escape give the code unit back. */
  lemma PaddedIsNumber(c: Code, width: nat)
    requires width == (if c <= 255 then 2 else 4)
    ensures var t := Padded(Hex(c), width); |t| == width && AllDigits(t) && Number(t) == c
  {
    HexDigits(c);
    HexIsNumber(c);
    PaddingKeepsNumber(Hex(c), width - |Hex(c)|);
    assert Repeat(48, 0) + Hex(c) == Hex(c);
  }

  lemma HexEscapeReads(input: seq<Code>, p: nat, c: Code, width: nat)
    requires StandsAt(input, p, HexEscape(c)) && width == (if c <= 255 then 2 else 4)
    ensures |HexEscape(c)| == 2 + width
    ensures CodeAt(input, p) == 92 && CodeAt(input, p + 1) == (if c <= 255 then 120 else 117)
    ensures HexAt(input, p + 2, width, 0) == Some(c)
  {
    var letter: Code := if c <= 255 then 120 else 117;
    var t := Padded(Hex(c), width);
    PaddedIsNumber(c, width);
    assert HexEscape(c) == [92, letter] + t;
    StandsSplit(input, p, [92, letter], t);
    StandsCodes(input, p, [92, letter], 0);
    StandsCodes(input, p, [92, letter], 1);
    HexAtReads(input, p + 2, t);
  }

  /** What has to be found at `p` for the scanner to take the unit `c` from `p` and go on at `q`. */
  predicate Delivers(input: seq<Code>, p: nat, c: Code, q: nat) {
    || (CodeAt(input, p) == c && IsJson(c) && c != 34 && c != 92 && q == p + 1)
    || (CodeAt(input, p) == 92 && Simple(CodeAt(input, p + 1)) == Some(c) && q == p + 2)
    || (var width := EscapeLength(CodeAt(input, p + 1));
        CodeAt(input, p) == 92 && width > 0 && HexAt(input, p + 2, width, 0) == Some(c) && q == p + 2 + width)
  }

  lemma DeliversScans(input: seq<Code>, p: nat, c: Code, q: nat, lineStart: nat)
    requires Delivers(input, p, c, q) && lineStart < p
    ensures Scan(input, p, lineStart) == Prepend([c], Scan(input, q, lineStart))
  {
  }

  lemma PieceDelivers(input: seq<Code>, p: nat, c: Code)
    requires StandsAt(input, p, Piece(c))
    ensures Delivers(input, p, c, p + |Piece(c)|)
  {
    if Named(c) != [] {
      StandsCodes(input, p, Named(c), 0);
      StandsCodes(input, p, Named(c), 1);
    } else if Printable(c) {
      StandsCodes(input, p, [c], 0);
    } else {
      HexEscapeReads(input, p, c, if c <= 255 then 2 else 4);
    }
  }

  lemma DumpFirst(s: seq<Code>)
    requires s != []
    ensures Dump(s) == Piece(s[0]) + Dump(s[1..])
    ensures Dump(s) + [34] == Piece(s[0]) + (Dump(s[1..]) + [34])
  {
  }

  /** A scanner that takes one unit from every piece takes the whole string from all of them. */
  lemma {:induction false} PiecesScan(input: seq<Code>, p: nat, s: seq<Code>, f: Code -> seq<Code>,
                                      scan: nat -> Option<Scalar>, lineStart: nat)
    requires StandsAt(input, p, FlatMap(f, s) + [34]) && lineStart < p
    requires forall q: nat, c :: lineStart < q && StandsAt(input, q, f(c)) ==> scan(q) == Prepend([c], scan(q + |f(c)|))
    requires forall q: nat :: StandsAt(input, q, [34]) ==> scan(q) == Some(Scalar([], q + 1, lineStart))
    ensures scan(p) == Some(Scalar(s, p + |FlatMap(f, s)| + 1, lineStart))
    decreases |s|
  {
    if s == [] {
      assert FlatMap(f, s) + [34] == [34];
    } else {
      var piece, rest := f(s[0]), FlatMap(f, s[1..]);
      assert FlatMap(f, s) + [34] == piece + (rest + [34]);
      StandsSplit(input, p, piece, rest + [34]);
      PiecesScan(input, p + |piece|, s[1..], f, scan, lineStart);
      assert [s[0]] + s[1..] == s;
    }
  }

  function Scanner(input: seq<Code>, lineStart: nat): nat -> Option<Scalar> {
    (q: nat) => Scan(input, q, lineStart)
  }

  lemma PiecesDeliver(input: seq<Code>, lineStart: nat)
    ensures var scan := Scanner(input, lineStart);
            forall q: nat, c :: lineStart < q && StandsAt(input, q, Piece(c)) ==>
              scan(q) == Prepend([c], scan(q + |Piece(c)|))
  {
    var scan := Scanner(input, lineStart);
    forall q: nat, c | lineStart < q && StandsAt(input, q, Piece(c))
      ensures scan(q) == Prepend([c], scan(q + |Piece(c)|))
    {
      var end := q + |Piece(c)|;
      PieceDelivers(input, q, c);
      DeliversScans(input, q, c, end, lineStart);
    }
  }

  lemma QuotesEnd(input: seq<Code>, lineStart: nat)
    ensures var scan := Scanner(input, lineStart);
            forall q: nat :: StandsAt(input, q, [34]) ==> scan(q) == Some(Scalar([], q + 1, lineStart))
  {
    var scan := Scanner(input, lineStart);
    forall q: nat | StandsAt(input, q, [34]) ensures scan(q) == Some(Scalar([], q + 1, lineStart)) {
      StandsCodes(input, q, [34], 0);
    }
  }

  lemma DumpScansWith(input: seq<Code>, p: nat, s: seq<Code>, lineStart: nat, scan: nat -> Option<Scalar>)
    requires StandsAt(input, p, Dump(s) + [34]) && lineStart < p && scan == Scanner(input, lineStart)
    ensures scan(p) == Some(Scalar(s, p + |Dump(s)| + 1, lineStart))
  {
    PiecesDeliver(input, lineStart);
    QuotesEnd(input, lineStart);
    PiecesScan(input, p, s, Piece, scan, lineStart);
  }

  /** Wherever it stands, the printed form of any string scans to that string, up to the closing quote. */
  lemma DumpScans(input: seq<Code>, p: nat, s: seq<Code>, lineStart: nat)
    requires StandsAt(input, p, Dump(s) + [34]) && lineStart < p
    ensures Scan(input, p, lineStart) == Some(Scalar(s, p + |Dump(s)| + 1, lineStart))
  {
    DumpScansWith(input, p, s, lineStart, Scanner(input, lineStart));
  }

  /** The quoted form of any string reads back as that string from any place in any stream. */
  lemma RoundTrip(before: seq<Code>, s: seq<Code>, after: seq<Code>, lineStart: nat)
    requires lineStart <= |before|
    ensures var input := before + [34] + Dump(s) + [34] + after;
            CodeAt(input, |before|) == 34
            && Scan(input, |before| + 1, lineStart) == Some(Scalar(s, |before| + 1 + |Dump(s)| + 1, lineStart))
  {
    var input, quoted := before + [34] + Dump(s) + [34] + after, Dump(s) + [34];
    assert input == (before + [34]) + quoted + after;
    assert input[|before| + 1..|before| + 1 + |quoted|] == quoted;
    DumpScans(input, |before| + 1, s, lineStart);
  }

  /** Everything the printer writes is printable, so the loader's check of the stream lets it pass. */
  lemma PieceIsPrintable(c: Code)
    ensures forall k :: 0 <= k < |Piece(c)| ==> Printable(Piece(c)[k])
  {
    if Named(c) == [] && !Printable(c) {
      HexIsUpper(c);
    }
  }

  predicate IsUpperDigit(c: Code) {
    48 <= c <= 57 || 65 <= c <= 70
  }

  lemma {:induction false} HexIsUpper(n: nat)
    ensures forall k :: 0 <= k < |Hex(n)| ==> IsUpperDigit(Hex(n)[k])
  {
    if n >= 16 {
      HexIsUpper(n / 16);
    }
  }

  lemma {:induction false} DumpIsPrintable(s: seq<Code>)
    ensures forall k :: 0 <= k < |Dump(s)| ==> Printable(Dump(s)[k])
  {
    if s != [] {
      DumpFirst(s);
      PieceIsPrintable(s[0]);
      DumpIsPrintable(s[1..]);
    }
  }

  /** Two strings never print alike. */
  lemma DumpIsInjective(s: seq<Code>, t: seq<Code>)
    requires Dump(s) == Dump(t)
    ensures s == t
  {
    var input := [34] + Dump(s) + [34];
    assert input[1..] == Dump(s) + [34];
    DumpScans(input, 1, s, 0);
    DumpScans(input, 1, t, 0);
  }

  // ---------------------------------------------------------------- line breaks

  // A line break, a carriage return with its line feed being one, and the blanks behind it.
  datatype Break = LF | CR | CRLF

  datatype Line = Line(mark: Break, blanks: seq<Code>) {
    function Units(): (u: seq<Code>)
      ensures |u| == Width()
    {
      Mark() + blanks
    }

    function Mark(): seq<Code> {
      match mark
      case LF => [10]
      case CR => [13]
      case CRLF => [13, 10]
    }

    function Width(): nat {
      (if mark == CRLF then 2 else 1) + |blanks|
    }
  }

  predicate AllBlank(s: seq<Code>) {
    forall k :: 0 <= k < |s| ==> s[k] == 9 || s[k] == 32
  }

  function Text(lines: seq<Line>): seq<Code> {
    if lines == [] then [] else lines[0].Units() + Text(lines[1..])
  }

  predicate AreLines(lines: seq<Line>) {
    lines != [] ==>
      && AllBlank(lines[0].blanks)
      && (|lines| > 1 && lines[0] == Line(CR, []) ==> lines[1].mark != LF)
      && AreLines(lines[1..])
  }

  predicate IsWhite(c: int) {
    c == 9 || c == 32 || c == 10 || c == 13
  }

  /** All the breaks and blanks from p on, beginning with a break. */
  predicate IsStretch(input: seq<Code>, p: nat, lines: seq<Line>) {
    lines != [] && AreLines(lines) && StandsAt(input, p, Text(lines)) && !IsWhite(CodeAt(input, p + |Text(lines)|))
  }

  lemma {:induction false} PassBlanks(input: seq<Code>, p: nat, n: nat)
    requires forall k :: p <= k < p + n ==> IsBlank(CodeAt(input, k))
    requires !IsBlank(CodeAt(input, p + n))
    ensures SkipBlanks(input, p) == p + n
    decreases n
  {
    if n > 0 {
      PassBlanks(input, p + 1, n - 1);
    }
  }

  lemma GapAfterBlanks(input: seq<Code>, p: nat, q: nat, lineStart: nat)
    requires SkipBlanks(input, p) == q
    ensures SkipGap(input, p, lineStart) == SkipGap(input, q, lineStart)
  {
  }

  lemma GapStep(input: seq<Code>, p: nat, lineStart: nat)
    requires IsBreak(CodeAt(input, p))
    ensures var q := AfterBreak(input, p);
            var rest := SkipGap(input, q, q);
            SkipGap(input, p, lineStart) == rest.(breaks := rest.breaks + 1)
  {
  }

  /** The text of a stretch is its first line, and the text of the others. */
  lemma StretchSplits(input: seq<Code>, p: nat, lines: seq<Line>)
    requires IsStretch(input, p, lines)
    ensures StandsAt(input, p, lines[0].Mark())
    ensures StandsAt(input, p + |lines[0].Mark()|, lines[0].blanks)
    ensures |Text(lines)| == lines[0].Width() + |Text(lines[1..])|
    ensures |lines| > 1 ==> IsStretch(input, p + lines[0].Width(), lines[1..])
  {
    StandsSplit(input, p, lines[0].Units(), Text(lines[1..]));
    StandsSplit(input, p, lines[0].Mark(), lines[0].blanks);
  }

  /** A line at p is passed by the scanner up to what stands behind it. */
  lemma LinePasses(input: seq<Code>, p: nat, l: Line)
    requires StandsAt(input, p, l.Mark()) && StandsAt(input, p + |l.Mark()|, l.blanks) && AllBlank(l.blanks)
    requires !IsBlank(CodeAt(input, p + l.Width()))
    requires l == Line(CR, []) ==> CodeAt(input, p + 1) != 10
    ensures IsBreak(CodeAt(input, p)) && AfterBreak(input, p) == p + |l.Mark()|
    ensures SkipBlanks(input, p + |l.Mark()|) == p + l.Width()
  {
    var q := p + |l.Mark()|;
    StandsCodes(input, p, l.Mark(), 0);
    if l.mark == CRLF {
      StandsCodes(input, p, l.Mark(), 1);
    } else if l.blanks != [] {
      StandsCodes(input, q, l.blanks, 0);
    }
    forall k | q <= k < q + |l.blanks| ensures IsBlank(CodeAt(input, k)) {
      StandsCodes(input, q, l.blanks, k - q);
    }
    PassBlanks(input, q, |l.blanks|);
  }

  lemma StretchBegins(input: seq<Code>, p: nat, lines: seq<Line>)
    requires IsStretch(input, p, lines)
    ensures CodeAt(input, p) == if lines[0].mark == LF then 10 else 13
  {
    StretchSplits(input, p, lines);
    StandsCodes(input, p, lines[0].Mark(), 0);
  }

  lemma LineGap(input: seq<Code>, p: nat, l: Line, lineStart: nat)
    requires StandsAt(input, p, l.Mark()) && StandsAt(input, p + |l.Mark()|, l.blanks) && AllBlank(l.blanks)
    requires !IsBlank(CodeAt(input, p + l.Width()))
    requires l == Line(CR, []) ==> CodeAt(input, p + 1) != 10
    ensures var rest := SkipGap(input, p + l.Width(), p + |l.Mark()|);
            SkipGap(input, p, lineStart) == rest.(breaks := rest.breaks + 1)
  {
    LinePasses(input, p, l);
    GapStep(input, p, lineStart);
    GapAfterBlanks(input, p + |l.Mark()|, p + l.Width(), p + |l.Mark()|);
  }

  /** What stands behind the first line of a stretch. */
  lemma BehindLine(input: seq<Code>, p: nat, lines: seq<Line>)
    requires IsStretch(input, p, lines)
    ensures !IsBlank(CodeAt(input, p + lines[0].Width()))
    ensures |lines| == 1 ==> !IsBreak(CodeAt(input, p + lines[0].Width()))
    ensures lines[0] == Line(CR, []) ==> CodeAt(input, p + 1) != 10
  {
    StretchSplits(input, p, lines);
    if |lines| > 1 {
      StretchBegins(input, p + lines[0].Width(), lines[1..]);
    }
  }

  /** The scanner passes the first line of a stretch, and is then at the next one or behind the stretch. */
  lemma StretchStep(input: seq<Code>, p: nat, lines: seq<Line>, lineStart: nat)
    requires IsStretch(input, p, lines)
    ensures var start, q := p + |lines[0].Mark()|, p + lines[0].Width();
            var rest := SkipGap(input, q, start);
            && SkipGap(input, p, lineStart) == rest.(breaks := rest.breaks + 1)
            && (|lines| == 1 ==> rest == Gap(q, 0, start))
  {
    StretchSplits(input, p, lines);
    BehindLine(input, p, lines);
    LineGap(input, p, lines[0], lineStart);
    if |lines| == 1 {
      PassBlanks(input, p + lines[0].Width(), 0);
    }
  }

  /** The scanner passes a stretch as a whole, and counts its lines. */
  lemma {:induction false} StretchIsGap(input: seq<Code>, p: nat, lines: seq<Line>, lineStart: nat)
    requires IsStretch(input, p, lines)
    ensures var g := SkipGap(input, p, lineStart);
            && g.end == p + |Text(lines)| && g.breaks == |lines|
            && g.lineStart + |lines[|lines| - 1].blanks| == g.end
    decreases |lines|
  {
    StretchStep(input, p, lines, lineStart);
    StretchSplits(input, p, lines);
    if |lines| > 1 {
      StretchIsGap(input, p + lines[0].Width(), lines[1..], p + |lines[0].Mark()|);
    }
  }

  /** Where a stretch ends, where its last line starts, and what it gives. */
  predicate IsFold(p: nat, lines: seq<Line>, end: nat, lineStart: nat, folded: seq<Code>)
    requires lines != []
  {
    && end == p + |Text(lines)|
    && lineStart + |lines[|lines| - 1].blanks| == end
    && folded == if |lines| == 1 then [32] else seq(|lines| - 1, _ => 10)
  }

  lemma GapFolds(input: seq<Code>, p: nat, lineStart: nat)
    ensures var g := SkipGap(input, p, lineStart);
            forall lines :: IsStretch(input, p, lines) ==> IsFold(p, lines, g.end, g.lineStart, Folded(g.breaks))
  {
    var g := SkipGap(input, p, lineStart);
    forall lines | IsStretch(input, p, lines) ensures IsFold(p, lines, g.end, g.lineStart, Folded(g.breaks)) {
      StretchIsGap(input, p, lines, lineStart);
    }
  }

  // ---------------------------------------------------------------- the scanner

  lemma PrependTwice(a: seq<Code>, b: seq<Code>, rest: Option<Scalar>)
    ensures Prepend(a, Prepend(b, rest)) == Prepend(a + b, rest)
  {
    if rest.Some? {
      assert a + (b + rest.value.text) == a + b + rest.value.text;
    }
  }

  function AddBreaks(g: Gap, breaks: nat): Gap {
    g.(breaks := g.breaks + breaks)
  }

  // The scanner as a function value, so that the loop need not look into it.
  ghost predicate IsScan(input: seq<Code>, scan: (nat, nat) -> Option<Scalar>) {
    forall p: nat, l: nat {:trigger Scan(input, p, l)} :: scan(p, l) == Scan(input, p, l)
  }

  ghost function ScanOf(input: seq<Code>): (nat, nat) -> Option<Scalar> {
    (p: nat, l: nat) => Scan(input, p, l)
  }

  /** What a scan comes to whose result so far and open segment are these. */
  function Pending(result: seq<Code>, segment: seq<Code>, rest: Option<Scalar>): Option<Scalar> {
    if AllJson(segment) then Prepend(result + segment, rest) else None
  }

  lemma PendingNothing(result: seq<Code>, rest: Option<Scalar>)
    ensures Pending(result, [], rest) == Prepend(result, rest)
    ensures Prepend([], rest) == rest
  {
    assert result + [] == result;
    if rest.Some? {
      assert [] + rest.value.text == rest.value.text;
    }
  }

  /** The open segment grows by a unit that is neither quote, escape nor line break. */
  lemma PendingPlain(input: seq<Code>, start: nat, p: nat, result: seq<Code>, lineStart: nat)
    requires start <= p < |input| && input[p] != 0 && input[p] != 34 && input[p] != 92 && !IsBreak(input[p])
    requires !(p == lineStart && DocumentSeparator(input, p))
    ensures Pending(result, input[start..p], Scan(input, p, lineStart))
         == Pending(result, input[start..p + 1], Scan(input, p + 1, lineStart))
  {
    var segment, c := input[start..p], input[p];
    assert input[start..p + 1] == segment + [c];
    if IsJson(c) {
      PrependTwice(result + segment, [c], Scan(input, p + 1, lineStart));
      assert result + segment + [c] == result + (segment + [c]);
      assert forall k :: 0 <= k < |segment| ==> (segment + [c])[k] == segment[k];
    } else {
      assert (segment + [c])[|segment|] == c;
    }
  }

  predicate AllJson(part: seq<Code>) {
    forall k :: 0 <= k < |part| ==> IsJson(part[k])
  }

  /** Scanning ends before the terminator that the loader puts after the text. */
  predicate Terminated(input: seq<Code>) {
    |input| > 0 && input[|input| - 1] == 0
  }

  lemma {:induction false} BlanksEndInside(input: seq<Code>, p: nat)
    requires Terminated(input) && p < |input|
    ensures SkipBlanks(input, p) < |input|
    decreases |input| - p
  {
    if IsBlank(CodeAt(input, p)) {
      BlanksEndInside(input, p + 1);
    }
  }

  lemma {:induction false} GapEndsInside(input: seq<Code>, p: nat, lineStart: nat)
    requires Terminated(input) && p < |input|
    ensures SkipGap(input, p, lineStart).end < |input|
    decreases |input| - p
  {
    BlanksEndInside(input, p);
    var q := SkipBlanks(input, p);
    if IsBreak(CodeAt(input, q)) {
      GapEndsInside(input, AfterBreak(input, q), AfterBreak(input, q));
    }
  }

  class State {
    const input: seq<Code>
    var position: nat
    var lineStart: nat
    var result: seq<Code>

    constructor (input: seq<Code>)
      ensures this.input == input && position == 0 && lineStart == 0 && result == []
    {
      this.input, position, lineStart, result := input, 0, 0, [];
    }

    /** Appends the segment to the result; an error if it holds a control character. */
    method CaptureSegment(start: nat, end: nat) returns (ok: bool)
      requires start <= end <= |input|
      modifies this`result
      ensures ok == AllJson(input[start..end])
      ensures ok ==> result == old(result) + input[start..end]
    {
      var part := input[start..end];
      for k := 0 to |part|
        invariant AllJson(part[..k])
      {
        if !IsJson(part[k]) {
          assert !AllJson(part);
          return false;
        }
      }
      result := result + part;
      return true;
    }

    method ReadLineBreak()
      requires IsBreak(CodeAt(input, position))
      modifies this`position, this`lineStart
      ensures position == lineStart == AfterBreak(input, old(position))
    {
      if CodeAt(input, position) == 10 {
        position := position + 1;
      } else {
        position := position + 1;
        if CodeAt(input, position) == 10 {
          position := position + 1;
        }
      }
      lineStart := position;
    }

    /** Passes blanks and line breaks, and counts the breaks. */
    method SkipSeparationSpace() returns (breaks: nat)
      requires Terminated(input) && position < |input|
      modifies this`position, this`lineStart
      ensures SkipGap(input, old(position), old(lineStart)) == Gap(position, breaks, lineStart)
      ensures position < |input|
    {
      breaks := 0;
      ghost var whole := SkipGap(input, position, lineStart);
      GapEndsInside(input, position, lineStart);
      var c := CodeAt(input, position);
      while c != 0
        invariant position < |input| && c == CodeAt(input, position)
        invariant whole == AddBreaks(SkipGap(input, position, lineStart), breaks)
        decreases |input| - position
      {
        ghost var before := position;
        SkipWhile(true);
        if !IsBreak(CodeAt(input, position)) {
          return;
        }
        ReadLineBreak();
        breaks := breaks + 1;
        SkipWhile(false);
        c := CodeAt(input, position);
      }
    }

    /** Passes spaces, and tabs if asked to; both belong to the gap. */
    method SkipWhile(tabs: bool)
      requires Terminated(input) && position < |input|
      modifies this`position
      ensures old(position) <= position < |input|
      ensures SkipGap(input, position, lineStart) == SkipGap(input, old(position), lineStart)
      ensures tabs ==> !IsBlank(CodeAt(input, position))
    {
      while CodeAt(input, position) == 32 || (tabs && CodeAt(input, position) == 9)
        invariant old(position) <= position < |input|
        invariant SkipGap(input, position, lineStart) == SkipGap(input, old(position), lineStart)
        decreases |input| - position
      {
        position := position + 1;
      }
    }

    /** The digits after the current position; it ends on the last of them. */
    method ReadHex(k: nat) returns (v: Option<int>)
      requires Terminated(input) && position < |input|
      modifies this`position
      ensures v == HexAt(input, old(position) + 1, k, 0)
      ensures v.Some? && k > 0 ==> position == old(position) + k && position + 1 < |input|
    {
      var value: int, left: nat := 0, k;
      while left > 0
        invariant left <= k && position == old(position) + (k - left) < |input|
        invariant left < k ==> CodeAt(input, position) != 0
        invariant HexAt(input, old(position) + 1, k, 0) == HexAt(input, position + 1, left, value)
      {
        position := position + 1;
        var d := DigitValue(CodeAt(input, position));
        if d < 0 {
          return None;
        }
        value := Shift4(value) + d;
        left := left - 1;
      }
      return Some(value);
    }

    /** One escape; a false result is a scanner error. */
    method ReadEscape() returns (ok: bool)
      requires Terminated(input) && position < |input| && CodeAt(input, position) == 92
      modifies this
      ensures !ok ==> Scan(input, old(position), old(lineStart)) == None
      ensures ok ==> old(position) < position < |input|
      ensures ok ==>
                Prepend(old(result), Scan(input, old(position), old(lineStart)))
                == Prepend(result, Scan(input, position, lineStart))
    {
      position := position + 1;
      var c := CodeAt(input, position);
      if IsBreak(c) {
        var breaks := SkipSeparationSpace();
      } else if Simple(c).Some? {
        result := result + [Simple(c).value];
        position := position + 1;
        PrependTwice(old(result), [Simple(c).value], Scan(input, position, lineStart));
      } else if EscapeLength(c) > 0 {
        var v := ReadHex(EscapeLength(c));
        if v.None? {
          return false;
        }
        result := result + CodeUnits(v.value);
        position := position + 1;
        PrependTwice(old(result), CodeUnits(v.value), Scan(input, position, lineStart));
      } else {
        return false;
      }
      return true;
    }

    /** A stretch of line breaks, folded into the result: one break is a space, and of several each but the first
        is a line feed. */
    method ReadFold()
      requires Terminated(input) && position < |input| && IsBreak(CodeAt(input, position))
      modifies this
      ensures old(position) < position < |input|
      ensures Prepend(old(result), Scan(input, old(position), old(lineStart)))
           == Prepend(result, Scan(input, position, lineStart))
      ensures forall lines :: IsStretch(input, old(position), lines) ==>
                && old(result) <= result
                && IsFold(old(position), lines, position, lineStart, result[|old(result)|..])
    {
      GapFolds(input, position, lineStart);
      var breaks := SkipSeparationSpace();
      result := result + Folded(breaks);
      PrependTwice(old(result), Folded(breaks), Scan(input, position, lineStart));
    }

    /** The open segment is captured and the escape read. */
    method CaptureAndEscape(start: nat, ghost goal: Option<Scalar>, ghost scan: (nat, nat) -> Option<Scalar>) returns (ok: bool)
      requires IsScan(input, scan) && Terminated(input) && start <= position < |input| && CodeAt(input, position) == 92
      requires goal == Pending(result, input[start..position], scan(position, lineStart))
      modifies this
      ensures !ok ==> goal == None
      ensures ok ==> old(position) < position < |input|
      ensures ok ==> goal == Pending(result, [], scan(position, lineStart))
    {
      assert scan(position, lineStart) == Scan(input, position, lineStart);
      ok := CaptureSegment(start, position);
      if ok {
        ok := ReadEscape();
        PendingNothing(result, scan(position, lineStart));
        assert scan(position, lineStart) == Scan(input, position, lineStart);
      }
    }

    /** The open segment is captured and the line folded. */
    method CaptureAndFold(start: nat, end: nat, ghost goal: Option<Scalar>, ghost scan: (nat, nat) -> Option<Scalar>) returns (ok: bool)
      requires IsScan(input, scan) && Terminated(input) && start <= end == position < |input| && IsBreak(CodeAt(input, position))
      requires goal == Pending(result, input[start..position], scan(position, lineStart))
      modifies this
      ensures !ok ==> goal == None
      ensures ok ==> old(position) < position < |input|
      ensures ok ==> goal == Pending(result, [], scan(position, lineStart))
    {
      assert scan(position, lineStart) == Scan(input, position, lineStart);
      ok := CaptureSegment(start, end);
      if ok {
        ReadFold();
        PendingNothing(result, scan(position, lineStart));
        assert scan(position, lineStart) == Scan(input, position, lineStart);
      }
    }

    /** The open segment is captured and the quote passed. */
    method CaptureAndClose(start: nat, ghost goal: Option<Scalar>, ghost scan: (nat, nat) -> Option<Scalar>) returns (ok: bool)
      requires IsScan(input, scan) && Terminated(input) && start <= position < |input| && CodeAt(input, position) == 34
      requires goal == Pending(result, input[start..position], scan(position, lineStart))
      modifies this
      ensures !ok ==> goal == None
      ensures ok ==> goal == Some(Scalar(result, position, lineStart))
    {
      assert scan(position, lineStart) == Scan(input, position, lineStart);
      ok := CaptureSegment(start, position);
      if ok {
        assert result + [] == result;
        position := position + 1;
      }
    }

    /** The open segment grows by one unit. */
    method TakePlain(start: nat, ghost goal: Option<Scalar>, ghost scan: (nat, nat) -> Option<Scalar>)
      requires IsScan(input, scan) && start <= position < |input| && input[position] != 0 && input[position] != 34
      requires input[position] != 92 && !IsBreak(input[position])
      requires !(position == lineStart && DocumentSeparator(input, position))
      requires goal == Pending(result, input[start..position], scan(position, lineStart))
      modifies this
      ensures position == old(position) + 1 && result == old(result) && lineStart == old(lineStart)
      ensures goal == Pending(result, input[start..position], scan(position, lineStart))
    {
      assert scan(position, lineStart) == Scan(input, position, lineStart);
      assert scan(position + 1, lineStart) == Scan(input, position + 1, lineStart);
      PendingPlain(input, start, position, result, lineStart);
      position := position + 1;
    }

    /** Where the scalar cannot go on. */
    lemma NoScalar(result: seq<Code>, segment: seq<Code>, p: nat, lineStart: nat, scan: (nat, nat) -> Option<Scalar>)
      requires IsScan(input, scan) && p < |input|
      requires input[p] == 0 || (p == lineStart && !IsBreak(input[p]) && input[p] != 34 && input[p] != 92
                                 && DocumentSeparator(input, p))
      ensures Pending(result, segment, scan(p, lineStart)) == None
    {
      assert scan(p, lineStart) == Scan(input, p, lineStart);
    }

    /** The text behind an opening quote. */
    method ReadQuoted(ghost goal: Option<Scalar>, ghost scan: (nat, nat) -> Option<Scalar>) returns (ok: bool)
      requires IsScan(input, scan) && Terminated(input) && position < |input| && result == []
      requires goal == scan(position, lineStart)
      modifies this
      ensures ok ==> goal == Some(Scalar(result, position, lineStart))
      ensures !ok ==> goal == None
    {
      PendingNothing([], goal);
      var start, end := position, position;
      assert input[start..end] == [];
      var c := CodeAt(input, position);
      while c != 0
        invariant start <= end == position < |input| && c == CodeAt(input, position)
        invariant goal == Pending(result, input[start..end], scan(position, lineStart))
        decreases |input| - position
      {
        if c == 34 {
          ok := CaptureAndClose(start, goal, scan);
          return;
        }
        if c == 92 {
          ok := CaptureAndEscape(start, goal, scan);
          if !ok { return; }
          start, end := position, position;
          assert input[start..end] == [];
        } else if IsBreak(c) {
          ok := CaptureAndFold(start, end, goal, scan);
          if !ok { return; }
          start, end := position, position;
          assert input[start..end] == [];
        } else if position == lineStart && DocumentSeparator(input, position) {
          NoScalar(result, input[start..end], position, lineStart, scan);
          return false;
        } else {
          TakePlain(start, goal, scan);
          end := position;
        }
        c := CodeAt(input, position);
      }
      NoScalar(result, input[start..end], position, lineStart, scan);
      return false;
    }

    /** `C`: no double-quoted scalar here (Some(false)), one read to its end, or an error (None). */
    method ReadDoubleQuotedScalar() returns (r: Option<bool>)
      requires Terminated(input) && position < |input|
      modifies this
      ensures CodeAt(input, old(position)) != 34 ==>
                r == Some(false) && position == old(position) && result == old(result) && lineStart == old(lineStart)
      ensures CodeAt(input, old(position)) == 34 ==>
                match Scan(input, old(position) + 1, old(lineStart))
                case None => r == None
                case Some(s) => r == Some(true) && Scalar(result, position, lineStart) == s
    {
      var c := CodeAt(input, position);
      if c != 34 {
        return Some(false);
      }
      result := [];
      position := position + 1;
      var ok := ReadQuoted(Scan(input, position, lineStart), ScanOf(input));
      r := if ok then Some(true) else None;
    }
  }
}
