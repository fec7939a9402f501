/** What a double-quoted scalar means, item by item, and that the scanner reads exactly that: plain units, escapes,
    and line breaks that are folded or escaped (YAML 1.2, chapters 5.7 and 7.3.1). */
module YamlItems {
  import opened Basics
  import opened YamlScalar

  datatype Item =
    | Plain(unit: Code)
    | Letter(letter: Code, unit: Code)
    | Hexadecimal(letter: Code, digits: seq<Code>, value: nat)
    | Fold(lines: seq<Line>)
    | Continue(lines: seq<Line>)  // a backslash, and breaks that do not count

  // An item in its place: where it ends, and where the line starts on which the text goes on behind it.
  datatype Placed = Placed(item: Item, end: nat, line: nat)

  const BACKSLASH: Code := 92
  const QUOTE: Code := 34

  function Written(item: Item): seq<Code> {
    match item
    case Plain(unit) => [unit]
    case Letter(letter, _) => [BACKSLASH, letter]
    case Hexadecimal(letter, digits, _) => [BACKSLASH, letter] + digits
    case Fold(lines) => Text(lines)
    case Continue(lines) => [BACKSLASH] + Text(lines)
  }

  // ---------------------------------------------------------------- meaning

  /** UTF-16; what is no code point is cut to 32 bits with a sign, and its units to 16 bits. */
  function Utf16(value: nat): seq<Code> {
    if value < 0x1_0000 || 0x8000_0000 <= value then [value % 0x1_0000]
    else [((value - 0x1_0000) / 0x400 + 0xD800) % 0x1_0000, (value - 0x1_0000) % 0x400 + 0xDC00]
  }

  function Meaning(item: Item): seq<Code> {
    match item
    case Plain(unit) => [unit]
    case Letter(_, unit) => [unit]
    case Hexadecimal(_, _, value) => Utf16(value)
    case Fold(lines) => if |lines| <= 1 then [32] else seq(|lines| - 1, _ => 10)
    case Continue(_) => []
  }

  function Meanings(items: seq<Placed>): seq<Code> {
    if items == [] then [] else Meaning(items[0].item) + Meanings(items[1..])
  }

  // ---------------------------------------------------------------- form

  predicate IsLetter(letter: Code, unit: Code) {
    || (letter == '0' as int && unit == 0) || (letter == 'a' as int && unit == 7)
    || (letter == 'b' as int && unit == 8) || (letter == 't' as int && unit == 9)
    || (letter == '\t' as int && unit == 9) || (letter == 'n' as int && unit == 10)
    || (letter == 'v' as int && unit == 11) || (letter == 'f' as int && unit == 12)
    || (letter == 'r' as int && unit == 13) || (letter == 'e' as int && unit == 27)
    || (letter == ' ' as int && unit == 32) || (letter == '\"' as int && unit == 34)
    || (letter == '/' as int && unit == 47) || (letter == '\\' as int && unit == 92)
    || (letter == 'N' as int && unit == 0x85) || (letter == '_' as int && unit == 0xA0)
    || (letter == 'L' as int && unit == 0x2028) || (letter == 'P' as int && unit == 0x2029)
  }

  /** The digit d, in lower or upper case. */
  predicate IsDigit(c: Code, d: nat) {
    || (d < 10 && c == '0' as int + d)
    || (10 <= d < 16 && (c == 'a' as int + (d - 10) || c == 'A' as int + (d - 10)))
  }

  predicate Denotes(digits: seq<Code>, value: nat) {
    if digits == [] then value == 0
    else IsDigit(digits[|digits| - 1], value % 16) && Denotes(digits[..|digits| - 1], value / 16)
  }

  predicate IsHexadecimal(letter: Code, count: nat) {
    || (letter == 'x' as int && count == 2) || (letter == 'u' as int && count == 4)
    || (letter == 'U' as int && count == 8)
  }

  /** Three dashes or dots, and white space or the end of the text behind them. */
  predicate IsSeparator(input: seq<Code>, p: nat) {
    && (StandsAt(input, p, [45, 45, 45]) || StandsAt(input, p, [46, 46, 46]))
    && (CodeAt(input, p + 3) == 0 || IsWhite(CodeAt(input, p + 3)))
  }

  /** The start of the last line, counted from the start of the stretch. */
  function LastStart(lines: seq<Line>): nat
    requires lines != []
  {
    if |lines| == 1 then |lines[0].Mark()| else lines[0].Width() + LastStart(lines[1..])
  }

  lemma {:induction false} LastStartIs(lines: seq<Line>)
    requires lines != []
    ensures LastStart(lines) + |lines[|lines| - 1].blanks| == |Text(lines)|
  {
    assert |Text(lines)| == lines[0].Width() + |Text(lines[1..])|;
    if |lines| > 1 {
      LastStartIs(lines[1..]);
    } else {
      assert Text(lines[1..]) == [];
    }
  }

  /** The item stands at p, on a line that starts at `lineStart`. */
  predicate IsPlaced(input: seq<Code>, p: nat, lineStart: nat, x: Placed) {
    && StandsAt(input, p, Written(x.item))
    && x.end == p + |Written(x.item)|
    && match x.item
       case Plain(unit) =>
         && (unit == 9 || unit >= 32) && unit != QUOTE && unit != BACKSLASH
         && !(p == lineStart && IsSeparator(input, p))
         && x.line == lineStart
       case Letter(letter, unit) => IsLetter(letter, unit) && x.line == lineStart
       case Hexadecimal(letter, digits, value) =>
         IsHexadecimal(letter, |digits|) && Denotes(digits, value) && x.line == lineStart
       case Fold(lines) => IsStretch(input, p, lines) && x.line == p + LastStart(lines)
       case Continue(lines) => IsStretch(input, p + 1, lines) && x.line == p + 1 + LastStart(lines)
  }

  ghost function PlacedIn(input: seq<Code>): (nat, nat, Placed) -> bool {
    (p: nat, lineStart: nat, x: Placed) => IsPlaced(input, p, lineStart, x)
  }

  /** The items stand one behind the other from p on. */
  ghost predicate Follow(isPlaced: (nat, nat, Placed) -> bool, p: nat, lineStart: nat, items: seq<Placed>)
    decreases |items|
  {
    items != [] ==>
      isPlaced(p, lineStart, items[0]) && Follow(isPlaced, items[0].end, items[0].line, items[1..])
  }

  function EndOf(p: nat, lineStart: nat, items: seq<Placed>): (nat, nat) {
    if items == [] then (p, lineStart) else (items[|items| - 1].end, items[|items| - 1].line)
  }

  /** The items make up the text from p to a closing quote. */
  ghost predicate Spells(input: seq<Code>, p: nat, lineStart: nat, items: seq<Placed>) {
    Follow(PlacedIn(input), p, lineStart, items) && CodeAt(input, EndOf(p, lineStart, items).0) == QUOTE
  }

  // ---------------------------------------------------------------- digits

  lemma DigitIff(c: Code, d: nat)
    requires d < 16
    ensures DigitValue(c) == d <==> IsDigit(c, d)
  {
  }

  lemma {:induction false} DenotesNumber(digits: seq<Code>, value: nat)
    ensures Denotes(digits, value) <==> AllDigits(digits) && Number(digits) == value
  {
    if digits != [] {
      var init, last := digits[..|digits| - 1], digits[|digits| - 1];
      DenotesNumber(init, value / 16);
      DigitIff(last, value % 16);
      if AllDigits(digits) {
        NumberNatural(init);
        Divided(Number(init), DigitValue(last));
      }
      assert digits == init + [last];
    }
  }

  lemma Divided(n: nat, d: nat)
    requires d < 16
    ensures (n * 16 + d) / 16 == n && (n * 16 + d) % 16 == d
  {
  }

  function Sixteen(k: nat): nat {
    if k == 0 then 1 else 16 * Sixteen(k - 1)
  }

  lemma {:induction false} NumberBelow(t: seq<Code>)
    requires AllDigits(t)
    ensures 0 <= Number(t) < Sixteen(|t|)
  {
    if t != [] {
      NumberBelow(t[..|t| - 1]);
    }
  }

  lemma NumberBounds(t: seq<Code>)
    requires AllDigits(t) && |t| <= 8
    ensures 0 <= Number(t) < 0x1_0000_0000 && (|t| <= 7 ==> Number(t) < 0x1000_0000)
  {
    NumberBelow(t);
    assert Sixteen(2) == 0x100 && Sixteen(4) == 0x1_0000 && Sixteen(6) == 0x100_0000 && Sixteen(7) == 0x1000_0000;
    assert Sixteen(8) == 0x1_0000_0000;
    assert Sixteen(1) == 16 && Sixteen(3) == 0x1000 && Sixteen(5) == 0x10_0000;
  }

  lemma ShiftedOver(x: int)
    requires 0x800_0000 <= x < 0x1000_0000
    ensures Shift4(x) == x * 16 - 0x1_0000_0000
  {
  }

  /** Eight digits above the range of a signed number: the last one is read into the sign. */
  lemma LongDigitsRead(input: seq<Code>, p: nat, t: seq<Code>, init: seq<Code>)
    requires StandsAt(input, p, t) && AllDigits(t) && |t| == 8 && Number(t) >= 0x8000_0000
    requires init == t[..7] && 0 <= Number(init) < 0x1000_0000
    ensures HexAt(input, p, 8, 0) == Some(Number(t) - 0x1_0000_0000)
  {
    assert Number(t) == Number(init) * 16 + DigitValue(t[7]);
    StandsCodes(input, p, t, 7);
    assert input[p..p + 7] == init;
    HexAtReads(input, p, init);
    HexAtLast(input, p, 7, 0);
    ShiftedOver(Number(init));
  }

  /** Up to eight digits are read as a signed number of 32 bits. */
  lemma DigitsRead(input: seq<Code>, p: nat, t: seq<Code>)
    requires StandsAt(input, p, t) && AllDigits(t) && |t| <= 8
    ensures 0 <= Number(t) < 0x1_0000_0000
    ensures HexAt(input, p, |t|, 0) == Some(if Number(t) < 0x8000_0000 then Number(t) else Number(t) - 0x1_0000_0000)
  {
    NumberBounds(t);
    if Number(t) < 0x8000_0000 {
      HexAtReads(input, p, t);
    } else {
      NumberBounds(t[..|t| - 1]);
      LongDigitsRead(input, p, t, t[..|t| - 1]);
    }
  }

  lemma LowUnit(v: int, n: int)
    requires n == v + 0x1_0000 * 0x1_0000
    ensures v % 0x1_0000 == n % 0x1_0000
  {
  }

  lemma UnitsAreUtf16(v: int, n: nat)
    requires n < 0x1_0000_0000 && v == if n < 0x8000_0000 then n else n - 0x1_0000_0000
    ensures CodeUnits(v) == Utf16(n)
  {
    if n >= 0x8000_0000 {
      LowUnit(v, n);
    }
  }

  // ---------------------------------------------------------------- what is spelt is scanned

  /** The scanner takes the x at p and goes on behind it. */
  predicate Takes(input: seq<Code>, p: nat, lineStart: nat, x: Placed) {
    Scan(input, p, lineStart) == Prepend(Meaning(x.item), Scan(input, x.end, x.line))
  }

  lemma SeparatorIff(input: seq<Code>, p: nat)
    ensures DocumentSeparator(input, p) <==> IsSeparator(input, p)
  {
    if StandsAt(input, p, [45, 45, 45]) {
      ThreeStand(input, p, 45);
    } else if StandsAt(input, p, [46, 46, 46]) {
      ThreeStand(input, p, 46);
    }
    if DocumentSeparator(input, p) {
      assert input[p..p + 3] == [input[p], input[p + 1], input[p + 2]];
    }
  }

  lemma ThreeStand(input: seq<Code>, p: nat, c: Code)
    requires StandsAt(input, p, [c, c, c])
    ensures CodeAt(input, p) == CodeAt(input, p + 1) == CodeAt(input, p + 2) == c
  {
    StandsCodes(input, p, [c, c, c], 0);
    StandsCodes(input, p, [c, c, c], 1);
    StandsCodes(input, p, [c, c, c], 2);
  }

  lemma PlainTaken(input: seq<Code>, p: nat, lineStart: nat, x: Placed)
    requires IsPlaced(input, p, lineStart, x) && x.item.Plain?
    ensures Takes(input, p, lineStart, x)
  {
    StandsCodes(input, p, [x.item.unit], 0);
    SeparatorIff(input, p);
  }

  lemma LetterIff(letter: Code, unit: Code)
    ensures Simple(letter) == Some(unit) <==> IsLetter(letter, unit)
    ensures IsLetter(letter, unit) ==> !IsBreak(letter)
  {
  }

  lemma LetterTaken(input: seq<Code>, p: nat, lineStart: nat, x: Placed)
    requires IsPlaced(input, p, lineStart, x) && x.item.Letter?
    ensures Takes(input, p, lineStart, x)
  {
    var letter := x.item.letter;
    StandsCodes(input, p, [BACKSLASH, letter], 0);
    StandsCodes(input, p, [BACKSLASH, letter], 1);
    LetterIff(letter, x.item.unit);
  }

  lemma EscapeScans(input: seq<Code>, p: nat, lineStart: nat, n: nat, v: int)
    requires CodeAt(input, p) == 92 && EscapeLength(CodeAt(input, p + 1)) == n > 0
    requires HexAt(input, p + 2, n, 0) == Some(v)
    ensures Scan(input, p, lineStart) == Prepend(CodeUnits(v), Scan(input, p + 2 + n, lineStart))
  {
  }

  lemma HexadecimalTaken(input: seq<Code>, p: nat, lineStart: nat, x: Placed)
    requires IsPlaced(input, p, lineStart, x) && x.item.Hexadecimal?
    ensures Takes(input, p, lineStart, x)
  {
    var Hexadecimal(letter, digits, value) := x.item;
    StandsSplit(input, p, [BACKSLASH, letter], digits);
    StandsCodes(input, p, [BACKSLASH, letter], 0);
    StandsCodes(input, p, [BACKSLASH, letter], 1);
    DenotesNumber(digits, value);
    DigitsRead(input, p + 2, digits);
    var v := if value < 0x8000_0000 then value else value - 0x1_0000_0000;
    UnitsAreUtf16(v, value);
    EscapeScans(input, p, lineStart, |digits|, v);
  }

  lemma StretchGap(input: seq<Code>, p: nat, lines: seq<Line>, lineStart: nat)
    requires IsStretch(input, p, lines)
    ensures IsBreak(CodeAt(input, p))
    ensures SkipGap(input, p, lineStart) == Gap(p + |Text(lines)|, |lines|, p + LastStart(lines))
  {
    StretchBegins(input, p, lines);
    StretchIsGap(input, p, lines, lineStart);
    LastStartIs(lines);
  }

  lemma BreakScans(input: seq<Code>, p: nat, lineStart: nat, g: Gap)
    requires IsBreak(CodeAt(input, p)) && SkipGap(input, p, lineStart) == g
    ensures Scan(input, p, lineStart) == Prepend(Folded(g.breaks), Scan(input, g.end, g.lineStart))
  {
  }

  lemma FoldGap(input: seq<Code>, p: nat, lineStart: nat, x: Placed)
    requires IsPlaced(input, p, lineStart, x) && x.item.Fold?
    ensures IsBreak(CodeAt(input, p)) && x.item.lines != []
    ensures SkipGap(input, p, lineStart) == Gap(x.end, |x.item.lines|, x.line)
  {
    StretchGap(input, p, x.item.lines, lineStart);
  }

  lemma FoldTaken(input: seq<Code>, p: nat, lineStart: nat, x: Placed)
    requires IsPlaced(input, p, lineStart, x) && x.item.Fold?
    ensures Takes(input, p, lineStart, x)
  {
    FoldGap(input, p, lineStart, x);
    BreakScans(input, p, lineStart, Gap(x.end, |x.item.lines|, x.line));
    assert Folded(|x.item.lines|) == Meaning(x.item);
  }

  lemma EscapedBreakScans(input: seq<Code>, p: nat, lineStart: nat, g: Gap)
    requires CodeAt(input, p) == 92 && IsBreak(CodeAt(input, p + 1)) && SkipGap(input, p + 1, lineStart) == g
    ensures Scan(input, p, lineStart) == Prepend([], Scan(input, g.end, g.lineStart))
  {
    PendingNothing([], Scan(input, g.end, g.lineStart));
  }

  lemma ContinueGap(input: seq<Code>, p: nat, lineStart: nat, x: Placed)
    requires IsPlaced(input, p, lineStart, x) && x.item.Continue?
    ensures CodeAt(input, p) == 92 && IsBreak(CodeAt(input, p + 1))
    ensures SkipGap(input, p + 1, lineStart) == Gap(x.end, |x.item.lines|, x.line)
  {
    StandsCodes(input, p, Written(x.item), 0);
    StretchGap(input, p + 1, x.item.lines, lineStart);
  }

  lemma ContinueTaken(input: seq<Code>, p: nat, lineStart: nat, x: Placed)
    requires IsPlaced(input, p, lineStart, x) && x.item.Continue?
    ensures Takes(input, p, lineStart, x)
  {
    ContinueGap(input, p, lineStart, x);
    EscapedBreakScans(input, p, lineStart, Gap(x.end, |x.item.lines|, x.line));
  }

  lemma PlacedTaken(input: seq<Code>, p: nat, lineStart: nat, x: Placed)
    requires IsPlaced(input, p, lineStart, x)
    ensures Takes(input, p, lineStart, x)
  {
    match x.item
    case Plain(_) => PlainTaken(input, p, lineStart, x);
    case Letter(_, _) => LetterTaken(input, p, lineStart, x);
    case Hexadecimal(_, _, _) => HexadecimalTaken(input, p, lineStart, x);
    case Fold(_) => FoldTaken(input, p, lineStart, x);
    case Continue(_) => ContinueTaken(input, p, lineStart, x);
  }

  // Scanners and items as function values, so that the inductions need not look into them.
  ghost predicate TakesPlaced(input: seq<Code>, isPlaced: (nat, nat, Placed) -> bool, scan: (nat, nat) -> Option<Scalar>) {
    && (forall p: nat, l: nat, x :: isPlaced(p, l, x) ==>
          scan(p, l) == Prepend(Meaning(x.item), scan(x.end, x.line)))
    && (forall p: nat, l: nat :: CodeAt(input, p) == 34 ==> scan(p, l) == Some(Scalar([], p + 1, l)))
  }

  lemma QuoteScans(input: seq<Code>, p: nat, lineStart: nat)
    requires CodeAt(input, p) == 34
    ensures Scan(input, p, lineStart) == Some(Scalar([], p + 1, lineStart))
  {
  }

  lemma ScannerTakesPlaced(input: seq<Code>)
    ensures TakesPlaced(input, PlacedIn(input), ScanOf(input))
  {
    var isPlaced, scan := PlacedIn(input), ScanOf(input);
    forall p: nat, l: nat, x | isPlaced(p, l, x)
      ensures scan(p, l) == Prepend(Meaning(x.item), scan(x.end, x.line))
    {
      PlacedTaken(input, p, l, x);
    }
    forall p: nat, l: nat | CodeAt(input, p) == 34 ensures scan(p, l) == Some(Scalar([], p + 1, l)) {
      QuoteScans(input, p, l);
    }
  }

  lemma {:induction false} SpeltTaken(input: seq<Code>, p: nat, lineStart: nat, items: seq<Placed>,
                                      isPlaced: (nat, nat, Placed) -> bool, scan: (nat, nat) -> Option<Scalar>)
    requires TakesPlaced(input, isPlaced, scan) && Follow(isPlaced, p, lineStart, items)
    requires CodeAt(input, EndOf(p, lineStart, items).0) == 34
    ensures var (end, line) := EndOf(p, lineStart, items);
            scan(p, lineStart) == Some(Scalar(Meanings(items), end + 1, line))
    decreases |items|
  {
    if items != [] {
      SpeltTaken(input, items[0].end, items[0].line, items[1..], isPlaced, scan);
    }
  }

  /** Pieces up to a closing quote are scanned to what they mean. */
  lemma SpeltScans(input: seq<Code>, p: nat, lineStart: nat, items: seq<Placed>)
    requires Spells(input, p, lineStart, items)
    ensures var (end, line) := EndOf(p, lineStart, items);
            Scan(input, p, lineStart) == Some(Scalar(Meanings(items), end + 1, line))
  {
    ScannerTakesPlaced(input);
    SpeltTaken(input, p, lineStart, items, PlacedIn(input), ScanOf(input));
  }

  // ---------------------------------------------------------------- what is scanned is spelt

  lemma StandsJoin(input: seq<Code>, p: nat, a: seq<Code>, b: seq<Code>)
    requires StandsAt(input, p, a) && StandsAt(input, p + |a|, b)
    ensures StandsAt(input, p, a + b)
  {
    var u, w := input[p..p + |a + b|], a + b;
    forall k | 0 <= k < |a + b| ensures u[k] == w[k] {
      if k < |a| {
        StandsCodes(input, p, a, k);
      } else {
        StandsCodes(input, p + |a|, b, k - |a|);
      }
    }
  }

  lemma {:induction false} BlanksBetween(input: seq<Code>, p: nat)
    requires p <= |input|
    ensures SkipBlanks(input, p) <= |input| && AllBlank(input[p..SkipBlanks(input, p)])
    decreases |input| - p
  {
    if IsBlank(CodeAt(input, p)) {
      BlanksBetween(input, p + 1);
      assert input[p..SkipBlanks(input, p)] == [input[p]] + input[p + 1..SkipBlanks(input, p)];
    }
  }

  /** The line that begins with the break at p. */
  lemma LineAt(input: seq<Code>, p: nat) returns (l: Line)
    requires IsBreak(CodeAt(input, p))
    ensures StandsAt(input, p, l.Units()) && AllBlank(l.blanks)
    ensures !IsBlank(CodeAt(input, p + l.Width()))
    ensures l == Line(CR, []) ==> CodeAt(input, p + 1) != 10
  {
    var start := AfterBreak(input, p);
    var q := SkipBlanks(input, start);
    BlanksBetween(input, start);
    var mark := if CodeAt(input, p) == 10 then LF else if CodeAt(input, p + 1) == 10 then CRLF else CR;
    l := Line(mark, input[start..q]);
    assert input[p..start] == l.Mark();
    StandsJoin(input, p, l.Mark(), l.blanks);
  }

  lemma {:induction false} LinesAt(input: seq<Code>, p: nat) returns (lines: seq<Line>)
    requires IsBreak(CodeAt(input, p))
    ensures IsStretch(input, p, lines)
    decreases |input| - p
  {
    var l := LineAt(input, p);
    var q := p + l.Width();
    if IsBreak(CodeAt(input, q)) {
      var rest := LinesAt(input, q);
      lines := [l] + rest;
      FirstLine(input, p, l, rest);
    } else {
      lines := [l];
      assert Text(lines) == l.Units() + [] == l.Units();
    }
  }

  lemma FirstLine(input: seq<Code>, p: nat, l: Line, rest: seq<Line>)
    requires StandsAt(input, p, l.Units()) && AllBlank(l.blanks) && IsStretch(input, p + l.Width(), rest)
    requires l == Line(CR, []) ==> CodeAt(input, p + 1) != 10
    ensures IsStretch(input, p, [l] + rest)
  {
    var lines := [l] + rest;
    assert lines[1..] == rest;
    StretchBegins(input, p + l.Width(), rest);
    StandsJoin(input, p, l.Units(), Text(rest));
  }

  lemma {:induction false} HexAtDigits(input: seq<Code>, p: nat, k: nat, acc: int)
    requires HexAt(input, p, k, acc).Some? && p <= |input|
    ensures p + k <= |input| && AllDigits(input[p..p + k])
    decreases k
  {
    if k > 0 {
      var d := DigitValue(CodeAt(input, p));
      HexAtDigits(input, p + 1, k - 1, Shift4(acc) + d);
      assert input[p..p + k] == [input[p]] + input[p + 1..p + 1 + (k - 1)];
    }
  }

  lemma HexadecimalAt(input: seq<Code>, p: nat, lineStart: nat) returns (x: Placed)
    requires CodeAt(input, p) == 92 && EscapeLength(CodeAt(input, p + 1)) > 0
    requires HexAt(input, p + 2, EscapeLength(CodeAt(input, p + 1)), 0).Some?
    ensures IsPlaced(input, p, lineStart, x)
  {
    var n := EscapeLength(CodeAt(input, p + 1));
    HexAtDigits(input, p + 2, n, 0);
    var digits := input[p + 2..p + 2 + n];
    NumberBounds(digits);
    DenotesNumber(digits, Number(digits));
    x := Placed(Hexadecimal(input[p + 1], digits, Number(digits)), p + 2 + n, lineStart);
    assert input[p..p + 2] == [BACKSLASH, input[p + 1]];
    StandsJoin(input, p, [BACKSLASH, input[p + 1]], digits);
  }

  lemma ContinueAt(input: seq<Code>, p: nat, lineStart: nat) returns (x: Placed)
    requires CodeAt(input, p) == 92 && IsBreak(CodeAt(input, p + 1))
    ensures IsPlaced(input, p, lineStart, x)
  {
    var lines := LinesAt(input, p + 1);
    assert input[p..p + 1] == [BACKSLASH];
    StandsJoin(input, p, [BACKSLASH], Text(lines));
    x := Placed(Continue(lines), p + 1 + |Text(lines)|, p + 1 + LastStart(lines));
  }

  lemma EscapeAt(input: seq<Code>, p: nat, lineStart: nat) returns (x: Placed)
    requires CodeAt(input, p) == 92 && Scan(input, p, lineStart).Some?
    ensures IsPlaced(input, p, lineStart, x)
  {
    var d := CodeAt(input, p + 1);
    if IsBreak(d) {
      x := ContinueAt(input, p, lineStart);
    } else if d >= 0 && Simple(d).Some? {
      x := Placed(Letter(d, Simple(d).value), p + 2, lineStart);
      LetterIff(d, Simple(d).value);
      assert input[p..p + 2] == [BACKSLASH, d];
    } else {
      x := HexadecimalAt(input, p, lineStart);
    }
  }

  lemma FoldAt(input: seq<Code>, p: nat, lineStart: nat) returns (x: Placed)
    requires IsBreak(CodeAt(input, p))
    ensures IsPlaced(input, p, lineStart, x)
  {
    var lines := LinesAt(input, p);
    x := Placed(Fold(lines), p + |Text(lines)|, p + LastStart(lines));
  }

  /** Where a scan that succeeds does not end, a x stands. */
  lemma PlacedAt(input: seq<Code>, p: nat, lineStart: nat) returns (x: Placed)
    requires Scan(input, p, lineStart).Some? && CodeAt(input, p) != 34
    ensures IsPlaced(input, p, lineStart, x)
  {
    var c := CodeAt(input, p);
    if c == 92 {
      x := EscapeAt(input, p, lineStart);
    } else if IsBreak(c) {
      x := FoldAt(input, p, lineStart);
    } else {
      x := Placed(Plain(c), p + 1, lineStart);
      assert input[p..p + 1] == [c];
      SeparatorIff(input, p);
    }
  }

  lemma PlacedIsWritten(input: seq<Code>, p: nat, lineStart: nat, x: Placed)
    requires IsPlaced(input, p, lineStart, x)
    ensures p < x.end <= |input|
  {
    if x.item.Fold? {
      StretchSplits(input, p, x.item.lines);
    }
  }

  lemma NextPlaced(input: seq<Code>, p: nat, lineStart: nat) returns (x: Placed)
    requires Scan(input, p, lineStart).Some? && CodeAt(input, p) != 34
    ensures PlacedIn(input)(p, lineStart, x) && p < x.end <= |input|
    ensures Takes(input, p, lineStart, x)
  {
    x := PlacedAt(input, p, lineStart);
    PlacedTaken(input, p, lineStart, x);
    PlacedIsWritten(input, p, lineStart, x);
  }

  lemma FirstPlaced(isPlaced: (nat, nat, Placed) -> bool, p: nat, lineStart: nat, x: Placed, rest: seq<Placed>)
    requires isPlaced(p, lineStart, x) && Follow(isPlaced, x.end, x.line, rest)
    ensures Follow(isPlaced, p, lineStart, [x] + rest)
    ensures Meanings([x] + rest) == Meaning(x.item) + Meanings(rest)
    ensures EndOf(p, lineStart, [x] + rest) == EndOf(x.end, x.line, rest)
  {
    assert ([x] + rest)[1..] == rest;
  }

  lemma {:induction false} ScannedSpells(input: seq<Code>, p: nat, lineStart: nat) returns (items: seq<Placed>)
    requires Scan(input, p, lineStart).Some?
    ensures Follow(PlacedIn(input), p, lineStart, items) && CodeAt(input, EndOf(p, lineStart, items).0) == 34
    decreases |input| - p
  {
    if CodeAt(input, p) == 34 {
      items := [];
    } else {
      var x := NextPlaced(input, p, lineStart);
      var rest := ScannedSpells(input, x.end, x.line);
      items := [x] + rest;
      FirstPlaced(PlacedIn(input), p, lineStart, x, rest);
    }
  }

  /** A scan succeeds exactly on items up to a closing quote, and gives what they mean. */
  lemma ScanIff(input: seq<Code>, p: nat, lineStart: nat)
    ensures Scan(input, p, lineStart).Some? <==> exists items :: Spells(input, p, lineStart, items)
    ensures forall items :: Spells(input, p, lineStart, items) ==>
              Scan(input, p, lineStart)
              == Some(Scalar(Meanings(items), EndOf(p, lineStart, items).0 + 1, EndOf(p, lineStart, items).1))
  {
    if Scan(input, p, lineStart).Some? {
      var items := ScannedSpells(input, p, lineStart);
      assert Spells(input, p, lineStart, items);
    }
    forall items | Spells(input, p, lineStart, items)
      ensures Scan(input, p, lineStart)
           == Some(Scalar(Meanings(items), EndOf(p, lineStart, items).0 + 1, EndOf(p, lineStart, items).1))
    {
      SpeltScans(input, p, lineStart, items);
    }
  }

  // ---------------------------------------------------------------- line folding

  /** Units that stand for themselves, unless they make up a document separator. */
  predicate AllPlain(s: seq<Code>) {
    forall k :: 0 <= k < |s| ==> (s[k] == 9 || s[k] >= 32) && s[k] != QUOTE && s[k] != BACKSLASH
  }

  lemma PlainUnit(input: seq<Code>, p: nat, c: Code, lineStart: nat, scan: (nat, nat) -> Option<Scalar>)
    requires IsScan(input, scan) && StandsAt(input, p, [c]) && (c == 9 || c >= 32) && c != QUOTE && c != BACKSLASH
    requires p == lineStart ==> !IsSeparator(input, p)
    ensures scan(p, lineStart) == Prepend([c], scan(p + 1, lineStart))
  {
    PlainTaken(input, p, lineStart, Placed(Plain(c), p + 1, lineStart));
    assert scan(p, lineStart) == Scan(input, p, lineStart);
    assert scan(p + 1, lineStart) == Scan(input, p + 1, lineStart);
  }

  lemma {:induction false} PlainRun(input: seq<Code>, p: nat, s: seq<Code>, lineStart: nat,
                                    scan: (nat, nat) -> Option<Scalar>)
    requires IsScan(input, scan)
    requires StandsAt(input, p, s) && AllPlain(s) && lineStart <= p && (p == lineStart ==> !IsSeparator(input, p))
    ensures scan(p, lineStart) == Prepend(s, scan(p + |s|, lineStart))
    decreases |s|
  {
    if s == [] {
      PendingNothing([], scan(p, lineStart));
    } else {
      var rest := s[1..];
      assert [s[0]] + rest == s;
      StandsSplit(input, p, [s[0]], rest);
      PlainUnit(input, p, s[0], lineStart, scan);
      PlainRun(input, p + 1, rest, lineStart, scan);
      PrependTwice([s[0]], rest, scan(p + 1 + |rest|, lineStart));
    }
  }

  /** Plain units up to the closing quote. */
  lemma PlainEnd(input: seq<Code>, p: nat, s: seq<Code>, lineStart: nat, scan: (nat, nat) -> Option<Scalar>)
    requires IsScan(input, scan)
    requires StandsAt(input, p, s + [QUOTE]) && AllPlain(s) && lineStart <= p && (p == lineStart ==> !IsSeparator(input, p))
    ensures scan(p, lineStart) == Some(Scalar(s, p + |s| + 1, lineStart))
  {
    StandsSplit(input, p, s, [QUOTE]);
    StandsCodes(input, p + |s|, [QUOTE], 0);
    QuoteScans(input, p + |s|, lineStart);
    assert scan(p + |s|, lineStart) == Scan(input, p + |s|, lineStart);
    PlainRun(input, p, s, lineStart, scan);
    assert s + [] == s;
  }

  /** Behind a stretch of breaks, escaped or not, text goes on that is plain, does not begin with a blank, is no
      document separator, and ends with the quote. */
  predicate GoesOn(input: seq<Code>, q: nat, after: seq<Code>) {
    && AllPlain(after)
    && (after != [] ==> after[0] != 9 && after[0] != 32)
    && !IsSeparator(input, q)
    && StandsAt(input, q, after + [QUOTE])
  }

  lemma StretchBefore(input: seq<Code>, p: nat, lines: seq<Line>, after: seq<Code>)
    requires lines != [] && AreLines(lines) && StandsAt(input, p, Text(lines)) && GoesOn(input, p + |Text(lines)|, after)
    ensures IsStretch(input, p, lines)
  {
    StandsCodes(input, p + |Text(lines)|, after + [QUOTE], 0);
  }

  lemma StretchAsGap(input: seq<Code>, p: nat, lines: seq<Line>, lineStart: nat) returns (g: Gap)
    requires IsStretch(input, p, lines)
    ensures IsBreak(CodeAt(input, p)) && g == SkipGap(input, p, lineStart)
    ensures g.end == p + |Text(lines)| && g.breaks == |lines| && g.lineStart <= g.end
  {
    g := SkipGap(input, p, lineStart);
    StretchBegins(input, p, lines);
    StretchIsGap(input, p, lines, lineStart);
  }

  /** What a gap gives, and the text behind it. */
  lemma BreakTaken(input: seq<Code>, p: nat, lineStart: nat, g: Gap, scan: (nat, nat) -> Option<Scalar>)
    requires IsScan(input, scan) && SkipGap(input, p, lineStart) == g && IsBreak(CodeAt(input, p)) && g.breaks > 0
    ensures scan(p, lineStart)
         == Prepend(if g.breaks == 1 then [32] else seq(g.breaks - 1, _ => 10), scan(g.end, g.lineStart))
  {
    BreakScans(input, p, lineStart, g);
    assert scan(p, lineStart) == Scan(input, p, lineStart);
    assert scan(g.end, g.lineStart) == Scan(input, g.end, g.lineStart);
  }

  lemma EscapedBreakTaken(input: seq<Code>, p: nat, lineStart: nat, g: Gap, scan: (nat, nat) -> Option<Scalar>)
    requires IsScan(input, scan) && SkipGap(input, p + 1, lineStart) == g
    requires CodeAt(input, p) == BACKSLASH && IsBreak(CodeAt(input, p + 1))
    ensures scan(p, lineStart) == Prepend([], scan(g.end, g.lineStart))
  {
    EscapedBreakScans(input, p, lineStart, g);
    assert scan(p, lineStart) == Scan(input, p, lineStart);
    assert scan(g.end, g.lineStart) == Scan(input, g.end, g.lineStart);
  }

  lemma BreaksGive(input: seq<Code>, p: nat, lines: seq<Line>, after: seq<Code>, lineStart: nat,
                   scan: (nat, nat) -> Option<Scalar>)
    requires IsScan(input, scan) && lines != [] && AreLines(lines) && StandsAt(input, p, Text(lines))
    requires GoesOn(input, p + |Text(lines)|, after)
    ensures scan(p, lineStart).Some?
    ensures scan(p, lineStart).value.text == (if |lines| == 1 then [32] else seq(|lines| - 1, _ => 10)) + after
  {
    StretchBefore(input, p, lines, after);
    var g := StretchAsGap(input, p, lines, lineStart);
    BreakTaken(input, p, lineStart, g, scan);
    PlainEnd(input, g.end, after, g.lineStart, scan);
  }

  lemma EscapedBreaksGive(input: seq<Code>, p: nat, lines: seq<Line>, after: seq<Code>, lineStart: nat,
                          scan: (nat, nat) -> Option<Scalar>)
    requires IsScan(input, scan) && lines != [] && AreLines(lines)
    requires CodeAt(input, p) == BACKSLASH && StandsAt(input, p + 1, Text(lines))
    requires GoesOn(input, p + 1 + |Text(lines)|, after)
    ensures scan(p, lineStart).Some? && scan(p, lineStart).value.text == after
  {
    StretchBefore(input, p + 1, lines, after);
    var g := StretchAsGap(input, p + 1, lines, lineStart);
    EscapedBreakTaken(input, p, lineStart, g, scan);
    PlainEnd(input, g.end, after, g.lineStart, scan);
    assert [] + after == after;
  }

  /** Plain units and what a scan behind them gives. */
  lemma PlainBefore(input: seq<Code>, p: nat, before: seq<Code>, lineStart: nat, rest: seq<Code>,
                    scan: (nat, nat) -> Option<Scalar>)
    requires IsScan(input, scan) && lineStart < p && AllPlain(before) && StandsAt(input, p, before)
    requires scan(p + |before|, lineStart).Some? && scan(p + |before|, lineStart).value.text == rest
    ensures Scan(input, p, lineStart).Some? && Scan(input, p, lineStart).value.text == before + rest
  {
    PlainRun(input, p, before, lineStart, scan);
    assert scan(p, lineStart) == Scan(input, p, lineStart);
  }

  /** One line break, with the blanks behind it, is a space; of several each but the first is a line feed. */
  lemma BreaksFold(input: seq<Code>, p: nat, before: seq<Code>, lines: seq<Line>, after: seq<Code>, lineStart: nat)
    requires lineStart < p && lines != [] && AreLines(lines) && AllPlain(before)
    requires StandsAt(input, p, before) && StandsAt(input, p + |before|, Text(lines))
    requires GoesOn(input, p + |before| + |Text(lines)|, after)
    ensures Scan(input, p, lineStart).Some?
    ensures Scan(input, p, lineStart).value.text
         == before + ((if |lines| == 1 then [32] else seq(|lines| - 1, _ => 10)) + after)
  {
    BreaksGive(input, p + |before|, lines, after, lineStart, ScanOf(input));
    var folded := if |lines| == 1 then [32] else seq(|lines| - 1, _ => 10);
    PlainBefore(input, p, before, lineStart, folded + after, ScanOf(input));
  }

  /** Behind a backslash line breaks give nothing. */
  lemma EscapedBreaksVanish(input: seq<Code>, p: nat, before: seq<Code>, lines: seq<Line>, after: seq<Code>, lineStart: nat)
    requires lineStart < p && lines != [] && AreLines(lines) && AllPlain(before)
    requires StandsAt(input, p, before) && CodeAt(input, p + |before|) == BACKSLASH
    requires StandsAt(input, p + |before| + 1, Text(lines))
    requires GoesOn(input, p + |before| + 1 + |Text(lines)|, after)
    ensures Scan(input, p, lineStart).Some? && Scan(input, p, lineStart).value.text == before + after
  {
    EscapedBreaksGive(input, p + |before|, lines, after, lineStart, ScanOf(input));
    PlainBefore(input, p, before, lineStart, after, ScanOf(input));
  }

  // ---------------------------------------------------------------- code points and the printer

  /** Two units for a code point above the first plane: the pair that stands for it. */
  lemma Utf16IsPair(value: nat)
    requires 0x1_0000 <= value <= 0x10_FFFF
    ensures var u := Utf16(value);
            && |u| == 2
            && var high: int, low: int := u[0], u[1];
               0xD800 <= high < 0xDC00 <= low < 0xE000 && value == 0x1_0000 + (high - 0xD800) * 0x400 + (low - 0xDC00)
  {
    var high := (value - 0x1_0000) / 0x400;
    assert 0 <= high < 0x400;
    assert value - 0x1_0000 == high * 0x400 + (value - 0x1_0000) % 0x400;
  }

  /** The units that the printer has a letter for. */
  predicate HasLetter(c: Code) {
    || c == 0 || 7 <= c <= 13 || c == 27 || c == '\"' as int || c == '\\' as int
    || c == 0x85 || c == 0xA0 || c == 0x2028 || c == 0x2029
  }

  predicate IsPrintable(c: Code) {
    || ' ' as int <= c <= '~' as int
    || (0xA1 <= c <= 0xD7FF && c != 0x2028 && c != 0x2029)
    || (0xE000 <= c <= 0xFFFD && c != 0xFEFF)
  }

  /** The printer escapes by a letter where there is one, leaves other printable units alone, and writes the rest as
      two or four upper-case digits. */
  lemma PrintedForms(c: Code)
    ensures HasLetter(c) ==>
              |Piece(c)| == 2 && Piece(c)[0] == BACKSLASH && Piece(c)[1] > 32 && IsLetter(Piece(c)[1], c)
    ensures !HasLetter(c) && IsPrintable(c) ==> Piece(c) == [c]
    ensures !HasLetter(c) && !IsPrintable(c) ==>
              var width := if c <= 0xFF then 2 else 4;
              && |Piece(c)| == 2 + width
              && Piece(c)[..2] == [BACKSLASH, if width == 2 then 'x' as int else 'u' as int]
              && Denotes(Piece(c)[2..], c) && forall k :: 2 <= k < |Piece(c)| ==> Piece(c)[k] < 'a' as int
  {
    if HasLetter(c) {
      LetterIff(Named(c)[1], c);
    } else if !IsPrintable(c) {
      var width := if c <= 0xFF then 2 else 4;
      var t := Padded(Hex(c), width);
      PaddedIsNumber(c, width);
      DenotesNumber(t, c);
      HexIsUpper(c);
      assert Piece(c)[2..] == t;
    }
  }
}
