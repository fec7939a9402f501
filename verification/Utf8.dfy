/** The UTF-8 encoder and decoder of the bundled Buffer. Shifts and masks are written as divisions and
    remainders by powers of two. */
module Utf8 {
  import opened Basics

  type Unit = u: int | 0 <= u < 0x1_0000  // a UTF-16 code unit

  predicate IsLead(u: int) { 0xD800 <= u < 0xDC00 }

  predicate IsTrail(u: int) { 0xDC00 <= u < 0xE000 }

  /** A surrogate pair stands at `k`. */
  predicate PairAt(s: seq<Unit>, k: nat) {
    k + 1 < |s| && IsLead(s[k]) && IsTrail(s[k + 1])
  }

  /** The code point of a surrogate pair. */
  function PairPoint(lead: Unit, trail: Unit): (p: int)
    requires IsLead(lead) && IsTrail(trail)
    ensures 0x1_0000 <= p < 0x11_0000
  {
    (lead - 0xD800) * 0x400 + (trail - 0xDC00) + 0x1_0000
  }

  const REPLACEMENT: seq<Byte> := [0xEF, 0xBF, 0xBD]

  // ---------------------------------------------------------------- encoding

  /** The bytes of a code point. */
  function PointBytes(p: int): (b: seq<Byte>)
    requires 0 <= p < 0x11_0000
  {
    if p < 0x80 then [p]
    else if p < 0x800 then [p / 64 + 192, p % 64 + 128]
    else if p < 0x1_0000 then [p / 4096 + 224, p / 64 % 64 + 128, p % 64 + 128]
    else [p / 0x4_0000 + 240, p / 4096 % 64 + 128, p / 64 % 64 + 128, p % 64 + 128]
  }

  /** How many units the character at `k` takes: two for a pair. */
  function LengthAt(s: seq<Unit>, k: nat): (n: nat)
    requires k < |s|
    ensures 1 <= n <= 2 && k + n <= |s|
  {
    if PairAt(s, k) then 2 else 1
  }

  /** The bytes of the character at `k`; a surrogate outside a pair counts as U+FFFD. */
  function BytesAt(s: seq<Unit>, k: nat): (b: seq<Byte>)
    requires k < |s|
    ensures 1 <= |b| <= 4
  {
    if PairAt(s, k) then PointBytes(PairPoint(s[k], s[k + 1]))
    else if IsLead(s[k]) || IsTrail(s[k]) then REPLACEMENT
    else PointBytes(s[k])
  }

  /** The characters of a string from `k` on, each as its bytes. */
  function Chunks(s: seq<Unit>, k: nat): (c: seq<seq<Byte>>)
    requires k <= |s|
    ensures c == [] <==> k == |s|
    decreases |s| - k
  {
    if k == |s| then [] else [BytesAt(s, k)] + Chunks(s, k + LengthAt(s, k))
  }

  // The bytes that may still be written; the encoder takes a budget of 0 for no limit.
  datatype Budget = Unlimited | Left(n: int) {
    function Minus(k: nat): Budget {
      if Unlimited? then this else Left(n - k)
    }

    predicate Spent() {
      Left? && n < 0
    }
  }

  /** The leading chunks that fit the budget, joined. */
  function Fit(chunks: seq<seq<Byte>>, budget: Budget): seq<Byte> {
    if chunks == [] || budget.Minus(|chunks[0]|).Spent() then []
    else chunks[0] + Fit(chunks[1..], budget.Minus(|chunks[0]|))
  }

  predicate EndsInTwoLeads(s: seq<Unit>) {
    |s| >= 2 && IsLead(s[|s| - 1]) && IsLead(s[|s| - 2])
  }

  /** What the encoder writes: it forgets a last lead that follows a lead. */
  function Written(s: seq<Unit>): seq<seq<Byte>> {
    var c := Chunks(s, 0);
    if EndsInTwoLeads(s) then c[..|c| - 1] else c
  }

  lemma NextChunk(s: seq<Unit>, from: nat, m: nat)
    requires from < |s| && m <= |Chunks(s, 0)| && Chunks(s, 0)[m..] == Chunks(s, from)
    ensures m < |Chunks(s, 0)| && Chunks(s, 0)[m] == BytesAt(s, from)
    ensures Chunks(s, 0)[m + 1..] == Chunks(s, from + LengthAt(s, from))
  {
    assert Chunks(s, 0)[m + 1..] == Chunks(s, 0)[m..][1..];
    assert Chunks(s, 0)[m..][0] == Chunks(s, 0)[m];
  }

  /** A chunk is written if it fits; one that does not stops all later ones too. */
  lemma FitStep(chunks: seq<seq<Byte>>, m: nat, budget: Budget)
    requires m < |chunks|
    ensures var rest := budget.Minus(|chunks[m]|);
            Fit(chunks[m..], budget) == (if rest.Spent() then [] else chunks[m]) + Fit(chunks[m + 1..], rest)
  {
    assert chunks[m..][1..] == chunks[m + 1..];
  }

  /** The encoder stands before unit `from`, with m chunks dealt with, on the way to `total`. */
  ghost predicate Underway(s: seq<Unit>, from: nat, m: nat, out: seq<Byte>, budget: Budget, total: seq<Byte>) {
    && from <= |s| && m <= |Written(s)| <= |Chunks(s, 0)|
    && Chunks(s, 0)[m..] == Chunks(s, from)
    && total == out + Fit(Written(s)[m..], budget)
  }

  /** Takes the next chunk off the budget and writes it if that leaves the budget unspent. */
  method Put(out: seq<Byte>, budget: Budget, chunk: seq<Byte>,
             ghost s: seq<Unit>, ghost from: nat, ghost m: nat, ghost total: seq<Byte>)
    returns (out': seq<Byte>, budget': Budget)
    requires Underway(s, from, m, out, budget, total) && from < |s| && chunk == BytesAt(s, from)
    requires !(EndsInTwoLeads(s) && from == |s| - 1)
    ensures Underway(s, from + LengthAt(s, from), m + 1, out', budget', total)
    ensures budget'.Spent() ==> out' == total
  {
    NextChunk(s, from, m);
    FitStep(Written(s), m, budget);
    budget' := budget.Minus(|chunk|);
    out' := if budget'.Spent() then out else out + chunk;
    ghost var later := Fit(Written(s)[m + 1..], budget');
    Assoc(out, chunk, later);
    Nothing(out, later);
    if budget'.Spent() {
      NothingFits(Written(s)[m + 1..], budget');
    }
  }

  // Where the encoder stands as a function value, so that the loop need not look into the characters.
  type Standing = (nat, nat, seq<Byte>, Budget) -> bool

  ghost predicate Stands(s: seq<Unit>, total: seq<Byte>, under: Standing) {
    forall from: nat, m: nat, out, budget {:trigger Underway(s, from, m, out, budget, total)} ::
      under(from, m, out, budget) == Underway(s, from, m, out, budget, total)
  }

  ghost function StandingOf(s: seq<Unit>, total: seq<Byte>): Standing {
    (from: nat, m: nat, out: seq<Byte>, budget: Budget) => Underway(s, from, m, out, budget, total)
  }

  /** U+FFFD for a surrogate outside a pair. */
  method PutStray(out: seq<Byte>, budget: Budget, ghost s: seq<Unit>, ghost from: nat, ghost m: nat,
                  ghost total: seq<Byte>, ghost under: Standing)
    returns (out': seq<Byte>, budget': Budget)
    requires Stands(s, total, under) && under(from, m, out, budget) && from < |s|
    requires (IsLead(s[from]) || IsTrail(s[from])) && !PairAt(s, from)
    requires !(EndsInTwoLeads(s) && from == |s| - 1)
    ensures under(from + 1, m + 1, out', budget')
    ensures budget'.Spent() ==> out' == total
  {
    assert Underway(s, from, m, out, budget, total);
    out', budget' := Put(out, budget, REPLACEMENT, s, from, m, total);
    assert Underway(s, from + 1, m + 1, out', budget', total);
  }

  /** The code point of a pair, given its lead, or of any other unit. */
  method PutPoint(out: seq<Byte>, budget: Budget, lead: int, unit: Unit, ghost s: seq<Unit>, ghost from: nat, ghost m: nat,
                  ghost total: seq<Byte>, ghost under: Standing)
    returns (out': seq<Byte>, budget': Budget)
    requires Stands(s, total, under) && under(from, m, out, budget) && from < |s|
    requires if PairAt(s, from) then lead == s[from] && unit == s[from + 1]
             else lead == -1 && unit == s[from] && !IsLead(unit) && !IsTrail(unit)
    ensures under(from + LengthAt(s, from), m + 1, out', budget')
    ensures budget'.Spent() ==> out' == total
  {
    assert Underway(s, from, m, out, budget, total);
    var r: int := unit;
    if lead != -1 {
      r := PairPoint(lead, unit);
    }
    out', budget' := Put(out, budget, PointBytes(r), s, from, m, total);
    assert Underway(s, from + LengthAt(s, from), m + 1, out', budget', total);
  }

  lemma NothingFits(chunks: seq<seq<Byte>>, budget: Budget)
    requires budget.Spent()
    ensures Fit(chunks, budget) == []
  {
  }

  /** `K(e, t)`: the encoder, with a lead surrogate remembered until the next unit is seen. */
  method Encode(s: seq<Unit>, units: nat) returns (out: seq<Byte>)
    ensures out == Fit(Written(s), if units == 0 then Unlimited else Left(units))
  {
    var budget := if units == 0 then Unlimited else Left(units);
    SetsOut(s, budget);
    out := EncodeUnits(s, budget, Fit(Written(s), budget), StandingOf(s, Fit(Written(s), budget)));
  }

  /** The loop of the encoder. */
  method EncodeUnits(s: seq<Unit>, budget0: Budget, ghost total: seq<Byte>, ghost under: Standing)
    returns (out: seq<Byte>)
    requires Stands(s, total, under) && under(0, 0, [], budget0)
    ensures out == total
  {
    var budget := budget0;
    out := [];
    var lead: int := -1;
    ghost var m, from := 0, 0;
    var k := 0;
    while k < |s|
      invariant k <= |s| && (lead == -1 || (k > 0 && lead == s[k - 1]))
      invariant lead != -1 <==> k > 0 && IsLead(s[k - 1]) && (k < |s| || EndsInTwoLeads(s))
      invariant from == if lead == -1 then k else k - 1
      invariant under(from, m, out, budget)
    {
      var r := s[k];
      k := k + 1;
      if 0xD800 <= r < 0xE000 {
        if lead == -1 {
          if IsTrail(r) || k == |s| {
            out, budget := PutStray(out, budget, s, from, m, total, under);
            from, m := from + 1, m + 1;
          } else {
            lead := r;
          }
          continue;
        }
        if IsLead(r) {
          out, budget := PutStray(out, budget, s, from, m, total, under);
          from, m := from + 1, m + 1;
          lead := r;
          continue;
        }
      } else if lead != -1 {
        out, budget := PutStray(out, budget, s, from, m, total, under);
        from, m := from + 1, m + 1;
        lead := -1;
      }
      out, budget := PutPoint(out, budget, lead, r, s, from, m, total, under);
      lead := -1;
      if budget.Spent() {
        return;
      }
      from, m := k, m + 1;
    }
    AllDealtWith(s, from, m, out, budget, total, under);
  }

  lemma SetsOut(s: seq<Unit>, budget: Budget)
    ensures var total := Fit(Written(s), budget);
            Stands(s, total, StandingOf(s, total)) && StandingOf(s, total)(0, 0, [], budget)
  {
    var total := Fit(Written(s), budget);
    assert Chunks(s, 0)[0..] == Chunks(s, 0) && Written(s)[0..] == Written(s);
    Nothing([], total);
    assert Underway(s, 0, 0, [], budget, total);
  }

  lemma AllDealtWith(s: seq<Unit>, from: nat, m: nat, out: seq<Byte>, budget: Budget, total: seq<Byte>, under: Standing)
    requires Stands(s, total, under) && under(from, m, out, budget)
    requires from == if EndsInTwoLeads(s) then |s| - 1 else |s|
    ensures out == total
  {
    assert Underway(s, from, m, out, budget, total);
    if EndsInTwoLeads(s) {
      NextChunk(s, from, m);
    }
    assert Written(s)[m..] == [];
  }

  // ---------------------------------------------------------------- what the encoder writes

  function Join(chunks: seq<seq<Byte>>): seq<Byte> {
    if chunks == [] then [] else chunks[0] + Join(chunks[1..])
  }

  /** The encoding of a whole string, without a limit. */
  function Encoded(s: seq<Unit>): seq<Byte> {
    Fit(Written(s), Unlimited)
  }

  lemma {:induction false} UnlimitedFits(chunks: seq<seq<Byte>>)
    ensures Fit(chunks, Unlimited) == Join(chunks)
  {
    if chunks != [] {
      UnlimitedFits(chunks[1..]);
    }
  }

  /** Under a limit the encoder writes the longest run of whole characters that fits. */
  lemma {:induction false} LimitedIsLongest(chunks: seq<seq<Byte>>, limit: nat) returns (j: nat)
    ensures j <= |chunks| && Fit(chunks, Left(limit)) == Join(chunks[..j])
    ensures |Join(chunks[..j])| <= limit
    ensures j < |chunks| ==> |Join(chunks[..j])| + |chunks[j]| > limit
  {
    if chunks == [] || |chunks[0]| > limit {
      j := 0;
    } else {
      j := LimitedIsLongest(chunks[1..], limit - |chunks[0]|);
      assert chunks[..j + 1][1..] == chunks[1..][..j];
      j := j + 1;
    }
  }

  lemma {:induction false} JoinAppend(chunks: seq<seq<Byte>>, c: seq<Byte>)
    ensures Join(chunks + [c]) == Join(chunks) + c
  {
    if chunks == [] {
      assert [] + [c] == [c] && Join([c]) == c + Join([]);
    } else {
      JoinAppend(chunks[1..], c);
      assert (chunks + [c])[1..] == chunks[1..] + [c];
    }
  }

  lemma LastStray(s: seq<Unit>, k: nat)
    requires k < |s| && k + LengthAt(s, k) == |s| && IsLead(s[|s| - 1])
    ensures Chunks(s, k) == [REPLACEMENT]
  {
    assert !PairAt(s, k) && BytesAt(s, k) == REPLACEMENT;
  }

  lemma LastOf<T>(a: T, rest: seq<T>)
    requires rest != []
    ensures ([a] + rest)[|[a] + rest| - 1] == rest[|rest| - 1]
  {
  }

  lemma {:induction false} LastChunk(s: seq<Unit>, k: nat)
    requires k < |s| && IsLead(s[|s| - 1])
    ensures var c := Chunks(s, k); c[|c| - 1] == REPLACEMENT
    decreases |s| - k
  {
    if k + LengthAt(s, k) < |s| {
      LastChunk(s, k + LengthAt(s, k));
      LastOf(BytesAt(s, k), Chunks(s, k + LengthAt(s, k)));
    } else {
      LastStray(s, k);
    }
  }

  /** Every character, and U+FFFD for every stray surrogate, is encoded exactly when the string does not
      end in two lead surrogates; then the last of them is left out. */
  lemma EncodesAllIff(s: seq<Unit>)
    ensures Encoded(s) == Join(Chunks(s, 0)) <==> !EndsInTwoLeads(s)
    ensures EndsInTwoLeads(s) ==> Encoded(s) + REPLACEMENT == Join(Chunks(s, 0))
  {
    var c := Chunks(s, 0);
    UnlimitedFits(Written(s));
    if EndsInTwoLeads(s) {
      LastChunk(s, 0);
      assert c == c[..|c| - 1] + [REPLACEMENT];
      JoinAppend(c[..|c| - 1], REPLACEMENT);
      assert |Encoded(s) + REPLACEMENT| == |Encoded(s)| + 3;
    }
  }

  // ---------------------------------------------------------------- decoding

  /** The length that the first byte of a sequence announces. */
  function Announced(b: Byte): nat {
    if b > 239 then 4 else if b > 223 then 3 else if b > 191 then 2 else 1
  }

  predicate IsTail(b: Byte) { b / 64 == 2 }

  // The payload bits of two, three and four bytes.
  function Point2(a: int, b: int): int { a % 32 * 64 + b % 64 }

  function Point3(a: int, b: int, c: int): int { a % 16 * 4096 + b % 64 * 64 + c % 64 }

  function Point4(a: int, b: int, c: int, d: int): int { a % 16 * 0x4_0000 + b % 64 * 4096 + c % 64 * 64 + d % 64 }

  /** The code point at `n`, or -1 if no well-formed sequence stands there. */
  function PointAt(b: seq<Byte>, n: nat): (p: int)
    requires n < |b|
    ensures -1 <= p < 0x11_0000 && !(0xD800 <= p < 0xE000)
  {
    var a := Announced(b[n]);
    if n + a > |b| then -1
    else if a == 1 then if b[n] < 128 then b[n] else -1
    else if a == 2 then
      var p := Point2(b[n], b[n + 1]);
      if IsTail(b[n + 1]) && p > 127 then p else -1
    else if a == 3 then
      var p := Point3(b[n], b[n + 1], b[n + 2]);
      if IsTail(b[n + 1]) && IsTail(b[n + 2]) && p > 2047 && (p < 55296 || p > 57343) then p else -1
    else
      var p := Point4(b[n], b[n + 1], b[n + 2], b[n + 3]);
      if IsTail(b[n + 1]) && IsTail(b[n + 2]) && IsTail(b[n + 3]) && p > 65535 && p < 1114112 then p else -1
  }

  function StepAt(b: seq<Byte>, n: nat): (k: nat)
    requires n < |b|
    ensures 1 <= k <= 4 && n + k <= |b|
  {
    if PointAt(b, n) < 0 then 1 else Announced(b[n])
  }

  /** The code units of a decoded code point; U+FFFD where there is none. */
  function UnitsOf(p: int): (u: seq<Unit>)
    requires -1 <= p < 0x11_0000
  {
    if p < 0 then [0xFFFD]
    else if p > 65535 then [(p - 65536) / 1024 % 1024 + 55296, 56320 + (p - 65536) % 1024]
    else [p]
  }

  function Decoded(b: seq<Byte>, n: nat): seq<Unit>
    requires n <= |b|
    decreases |b| - n
  {
    if n == |b| then [] else UnitsOf(PointAt(b, n)) + Decoded(b, n + StepAt(b, n))
  }

  /** The branches of the decoder that find a code point. */
  method ReadPoint(bytes: seq<Byte>, n: nat, limit: nat) returns (point: int, step: nat)
    requires n < limit <= |bytes|
    ensures point == PointAt(bytes[..limit], n) && step == StepAt(bytes[..limit], n)
  {
    point := -1;
    var first := bytes[n];
    step := Announced(first);
    if n + step <= limit {
      if step == 1 {
        if first < 128 { point := first; }
      } else if step == 2 {
        var p := Point2(first, bytes[n + 1]);
        if IsTail(bytes[n + 1]) && p > 127 { point := p; }
      } else if step == 3 {
        var p := Point3(first, bytes[n + 1], bytes[n + 2]);
        if IsTail(bytes[n + 1]) && IsTail(bytes[n + 2]) && p > 2047 && (p < 55296 || p > 57343) { point := p; }
      } else {
        var p := Point4(first, bytes[n + 1], bytes[n + 2], bytes[n + 3]);
        if IsTail(bytes[n + 1]) && IsTail(bytes[n + 2]) && IsTail(bytes[n + 3]) && p > 65535 && p < 1114112 {
          point := p;
        }
      }
    }
    if point < 0 {
      step := 1;
    }
  }

  /** The end of a round of the decoder: one or two units for the code point, or U+FFFD. */
  method PushPoint(units: seq<Unit>, p: int) returns (out: seq<Unit>)
    requires -1 <= p < 0x11_0000
    ensures out == units + UnitsOf(p)
  {
    var point := p;
    out := units;
    if point < 0 {
      point := 0xFFFD;
    } else if point > 65535 {
      point := point - 65536;
      out := out + [point / 1024 % 1024 + 55296];
      point := 56320 + point % 1024;
    }
    out := out + [point];
  }

  lemma Follows(b: seq<Byte>, n: nat, p: int, k: nat, units: seq<Unit>)
    requires n < |b| && p == PointAt(b, n) && k == StepAt(b, n)
    ensures units + Decoded(b, n) == units + UnitsOf(p) + Decoded(b, n + k)
  {
    DecodedAt(b, n, p, k);
    Assoc(units, UnitsOf(p), Decoded(b, n + k));
  }

  // The rest of a decoding as a function value, so that the loop need not look into it.
  ghost predicate IsDecoding(b: seq<Byte>, rest: nat -> seq<Unit>) {
    forall n: nat {:trigger Decoded(b, n)} :: n <= |b| ==> rest(n) == Decoded(b, n)
  }

  ghost function DecodingOf(b: seq<Byte>): nat -> seq<Unit> {
    (n: nat) => if n <= |b| then Decoded(b, n) else []
  }

  /** One round of the decoder. */
  method DecodeOne(bytes: seq<Byte>, n: nat, limit: nat, units: seq<Unit>, ghost rest: nat -> seq<Unit>)
    returns (units': seq<Unit>, step: nat)
    requires n < limit <= |bytes| && IsDecoding(bytes[..limit], rest)
    ensures 1 <= step && n + step <= limit
    ensures units + rest(n) == units' + rest(n + step)
  {
    var point;
    point, step := ReadPoint(bytes, n, limit);
    units' := PushPoint(units, point);
    Follows(bytes[..limit], n, point, step, units);
  }

  /** The loop of the decoder. */
  method DecodeAll(bytes: seq<Byte>, start: nat, limit: nat, ghost rest: nat -> seq<Unit>) returns (units: seq<Unit>)
    requires start <= limit <= |bytes| && IsDecoding(bytes[..limit], rest)
    ensures units + rest(limit) == rest(start)
  {
    units := [];
    var n := start;
    while n < limit
      invariant start <= n <= limit && units + rest(n) == rest(start)
    {
      var step;
      units, step := DecodeOne(bytes, n, limit, units, rest);
      n := n + step;
    }
  }

  /** `T(e, t, r)` */
  method Decode(bytes: seq<Byte>, start: nat, end: nat) returns (out: seq<Unit>)
    ensures var limit := if end < |bytes| then end else |bytes|;
            out == if start < limit then Decoded(bytes[..limit], start) else []
  {
    var limit := if end < |bytes| then end else |bytes|;
    if start >= limit { return []; }
    var units := DecodeAll(bytes, start, limit, DecodingOf(bytes[..limit]));
    Nothing(units, []);
    out := JoinUnits(units);
  }

  const CHUNK := 4096

  /** `B`: the string of a unit array, built from slices of at most CHUNK units. */
  method JoinUnits(units: seq<Unit>) returns (out: seq<Unit>)
    ensures out == units
  {
    if |units| <= CHUNK {
      return units;
    }
    out := [];
    var k := 0;
    while k < |units|
      invariant out == units[..if k < |units| then k else |units|]
    {
      var end := if k + CHUNK < |units| then k + CHUNK else |units|;
      out := out + units[k..end];
      k := k + CHUNK;
    }
  }

  // ---------------------------------------------------------------- well-formed UTF-16

  /** Every surrogate from `k` on is in a pair. */
  predicate WellFormed(s: seq<Unit>, k: nat)
    requires k <= |s|
    decreases |s| - k
  {
    k == |s| || ((PairAt(s, k) || (!IsLead(s[k]) && !IsTrail(s[k]))) && WellFormed(s, k + LengthAt(s, k)))
  }

  lemma {:induction false} WellFormedShift(a: seq<Unit>, s: seq<Unit>, k: nat)
    requires k <= |s|
    ensures WellFormed(a + s, |a| + k) == WellFormed(s, k)
    decreases |s| - k
  {
    if k < |s| {
      assert PairAt(a + s, |a| + k) == PairAt(s, k);
      WellFormedShift(a, s, k + LengthAt(s, k));
    }
  }

  /** Whatever the bytes, the decoder yields well-formed UTF-16. */
  lemma {:induction false} DecodedIsWellFormed(b: seq<Byte>, n: nat)
    requires n <= |b|
    ensures WellFormed(Decoded(b, n), 0)
    decreases |b| - n
  {
    if n < |b| {
      var first, rest := UnitsOf(PointAt(b, n)), Decoded(b, n + StepAt(b, n));
      DecodedIsWellFormed(b, n + StepAt(b, n));
      WellFormedShift(first, rest, 0);
      assert LengthAt(first + rest, 0) == |first|;
    }
  }

  lemma {:induction false} WellFormedEnd(s: seq<Unit>, k: nat)
    requires k < |s| && WellFormed(s, k)
    ensures !IsLead(s[|s| - 1])
    decreases |s| - k
  {
    if k + LengthAt(s, k) < |s| {
      WellFormedEnd(s, k + LengthAt(s, k));
    }
  }

  lemma Point2Inverse(p: int)
    requires 0x80 <= p < 0x800
    ensures Point2(p / 64 + 192, p % 64 + 128) == p
  {
  }

  lemma ThreeDigits(p: nat)
    ensures p == p / 4096 * 4096 + p / 64 % 64 * 64 + p % 64
  {
    assert p / 4096 == p / 64 / 64;
  }

  lemma Point3Inverse(p: int)
    requires 0x800 <= p < 0x1_0000
    ensures Point3(p / 4096 + 224, p / 64 % 64 + 128, p % 64 + 128) == p
  {
    TailPayload(p / 64 % 64);
    TailPayload(p % 64);
    ThreeDigits(p);
  }

  lemma TailPayload(w: int)
    requires 0 <= w < 64
    ensures (w + 128) % 64 == w
  {
  }

  lemma FourDigits(p: nat)
    ensures p == p / 0x4_0000 * 0x4_0000 + p / 4096 % 64 * 4096 + p / 64 % 64 * 64 + p % 64
  {
    assert p / 4096 == p / 64 / 64;
    assert p / 0x4_0000 == p / 4096 / 64;
  }

  lemma Point4Inverse(p: int)
    requires 0x1_0000 <= p < 0x11_0000
    ensures Point4(p / 0x4_0000 + 240, p / 4096 % 64 + 128, p / 64 % 64 + 128, p % 64 + 128) == p
  {
    TailPayload(p / 4096 % 64);
    TailPayload(p / 64 % 64);
    TailPayload(p % 64);
    LeadPayload(p);
    FourDigits(p);
  }

  lemma LeadPayload(p: int)
    requires 0 <= p < 0x11_0000
    ensures (p / 0x4_0000 + 240) % 16 == p / 0x4_0000
  {
  }

  /** A sequence of bytes stands at `n`. */
  predicate BytesStand(b: seq<Byte>, n: nat, c: seq<Byte>) {
    n + |c| <= |b| && forall k {:trigger c[k]} :: 0 <= k < |c| ==> b[n + k] == c[k]
  }

  /** The bytes of a code point decode to it wherever they stand. */
  lemma PointBytesDecode(b: seq<Byte>, n: nat, p: int)
    requires 0 <= p < 0x11_0000 && !(0xD800 <= p < 0xE000)
    requires BytesStand(b, n, PointBytes(p))
    ensures PointAt(b, n) == p && StepAt(b, n) == |PointBytes(p)|
  {
    var c := PointBytes(p);
    assert b[n] == c[0];
    if p < 0x80 {
    } else if p < 0x800 {
      assert b[n + 1] == c[1];
      Point2Inverse(p);
    } else if p < 0x1_0000 {
      assert b[n + 1] == c[1] && b[n + 2] == c[2];
      Point3Inverse(p);
    } else {
      assert b[n + 1] == c[1] && b[n + 2] == c[2] && b[n + 3] == c[3];
      Point4Inverse(p);
    }
  }

  lemma PairUnits(x: int, y: int)
    requires 0 <= x < 0x400 && 0 <= y < 0x400
    ensures (x * 0x400 + y) / 1024 % 1024 == x && (x * 0x400 + y) % 1024 == y
  {
  }

  lemma PairOf(lead: Unit, trail: Unit)
    requires IsLead(lead) && IsTrail(trail)
    ensures UnitsOf(PairPoint(lead, trail)) == [lead, trail]
  {
    PairUnits(lead - 0xD800, trail - 0xDC00);
  }

  lemma SliceTwo<T>(s: seq<T>, k: nat)
    requires k < |s|
    ensures s[k..k + 1] == [s[k]] && (k + 1 < |s| ==> s[k..k + 2] == [s[k], s[k + 1]])
  {
  }

  /** The code point of the character at `k` of a well-formed string, and its units. */
  function CharAt(s: seq<Unit>, k: nat): (p: int)
    requires k < |s| && WellFormed(s, k)
    ensures 0 <= p < 0x11_0000 && !(0xD800 <= p < 0xE000)
    ensures BytesAt(s, k) == PointBytes(p)
    ensures UnitsOf(p) == s[k..k + LengthAt(s, k)]
  {
    SliceTwo(s, k);
    if PairAt(s, k) then
      PairOf(s[k], s[k + 1]);
      PairPoint(s[k], s[k + 1])
    else s[k]
  }

  lemma SliceFrom<T>(s: seq<T>, k: nat, n: nat)
    requires k + n <= |s|
    ensures s[k..] == s[k..k + n] + s[k + n..]
  {
  }

  /** Where the bytes of a character stand, its units are decoded, and the rest follows. */
  lemma CharacterDecodes(s: seq<Unit>, k: nat, b: seq<Byte>, n: nat)
    requires k < |s| && WellFormed(s, k) && BytesStand(b, n, BytesAt(s, k))
    ensures Decoded(b, n) == s[k..k + LengthAt(s, k)] + Decoded(b, n + |BytesAt(s, k)|)
  {
    var p := CharAt(s, k);
    PointDecodes(b, n, p, BytesAt(s, k), s[k..k + LengthAt(s, k)]);
  }

  lemma PointDecodes(b: seq<Byte>, n: nat, p: int, c: seq<Byte>, units: seq<Unit>)
    requires 0 <= p < 0x11_0000 && !(0xD800 <= p < 0xE000) && c == PointBytes(p) && units == UnitsOf(p)
    requires BytesStand(b, n, c)
    ensures Decoded(b, n) == units + Decoded(b, n + |c|)
  {
    PointBytesDecode(b, n, p);
    DecodedAt(b, n, p, |c|);
  }

  lemma DecodedAt(b: seq<Byte>, n: nat, p: int, k: nat)
    requires n < |b| && p == PointAt(b, n) && k == StepAt(b, n)
    ensures Decoded(b, n) == UnitsOf(p) + Decoded(b, n + k)
  {
  }

  lemma NextCharacter(s: seq<Unit>, k: nat, b: seq<Byte>, n: nat) returns (len: nat, next: nat)
    requires k < |s| && WellFormed(s, k) && n <= |b| && b[n..] == Join(Chunks(s, k))
    ensures 1 <= len && k + len <= |s| && WellFormed(s, k + len)
    ensures next <= |b| && b[next..] == Join(Chunks(s, k + len))
    ensures Decoded(b, n) == s[k..k + len] + Decoded(b, next)
  {
    len, next := LengthAt(s, k), n + |BytesAt(s, k)|;
    JoinFirst(s, k, b, n);
    CharacterDecodes(s, k, b, n);
  }

  lemma {:induction false} ChunksDecode(s: seq<Unit>, k: nat, b: seq<Byte>, n: nat)
    requires k <= |s| && WellFormed(s, k) && n <= |b| && b[n..] == Join(Chunks(s, k))
    ensures Decoded(b, n) == s[k..]
    decreases |s| - k
  {
    if k < |s| {
      var len, next := NextCharacter(s, k, b, n);
      ChunksDecode(s, k + len, b, next);
      SliceFrom(s, k, len);
    } else {
      NothingLeft(s, k, b, n);
    }
  }

  lemma NothingLeft(s: seq<Unit>, k: nat, b: seq<Byte>, n: nat)
    requires k == |s| && n <= |b| && b[n..] == Join(Chunks(s, k))
    ensures Decoded(b, n) == s[k..]
  {
    assert |b[n..]| == 0;
  }

  lemma JoinFirst(s: seq<Unit>, k: nat, b: seq<Byte>, n: nat)
    requires k < |s| && n <= |b| && b[n..] == Join(Chunks(s, k))
    ensures BytesStand(b, n, BytesAt(s, k))
    ensures b[n + |BytesAt(s, k)|..] == Join(Chunks(s, k + LengthAt(s, k)))
  {
    var c, rest := BytesAt(s, k), Chunks(s, k + LengthAt(s, k));
    assert Chunks(s, k)[1..] == rest;
    assert b[n..] == c + Join(rest);
    forall j {:trigger c[j]} | 0 <= j < |c| ensures b[n + j] == c[j] {
      assert b[n..][j] == c[j];
    }
    assert b[n + |c|..] == b[n..][|c|..];
  }

  /** Decoding what was encoded gives the string back exactly when the string is well-formed. */
  lemma DecodeEncodedIff(s: seq<Unit>)
    ensures Decoded(Encoded(s), 0) == s <==> WellFormed(s, 0)
  {
    DecodedIsWellFormed(Encoded(s), 0);
    if WellFormed(s, 0) {
      EncodedOfWellFormed(s);
      assert Encoded(s)[0..] == Encoded(s);
      ChunksDecode(s, 0, Encoded(s), 0);
      assert s[0..] == s;
    }
  }

  // ---------------------------------------------------------------- valid UTF-8

  predicate In(b: Byte, lo: int, hi: int) { lo <= b <= hi }

  /** The length of the byte sequence at `n` that the table of RFC 3629, section 4, allows, or 0. */
  function SequenceAt(b: seq<Byte>, n: nat): (k: nat)
    requires n < |b|
    ensures n + k <= |b|
  {
    var left := |b| - n;
    if In(b[n], 0, 0x7F) then 1
    else if left >= 2 && In(b[n], 0xC2, 0xDF) && In(b[n + 1], 0x80, 0xBF) then 2
    else if left >= 3 && In(b[n + 2], 0x80, 0xBF) &&
            ((b[n] == 0xE0 && In(b[n + 1], 0xA0, 0xBF))
             || ((In(b[n], 0xE1, 0xEC) || In(b[n], 0xEE, 0xEF)) && In(b[n + 1], 0x80, 0xBF))
             || (b[n] == 0xED && In(b[n + 1], 0x80, 0x9F))) then 3
    else if left >= 4 && In(b[n + 2], 0x80, 0xBF) && In(b[n + 3], 0x80, 0xBF) &&
            ((b[n] == 0xF0 && In(b[n + 1], 0x90, 0xBF))
             || (In(b[n], 0xF1, 0xF3) && In(b[n + 1], 0x80, 0xBF))
             || (b[n] == 0xF4 && In(b[n + 1], 0x80, 0x8F))) then 4
    else 0
  }

  predicate ValidUtf8(b: seq<Byte>, n: nat)
    requires n <= |b|
    decreases |b| - n
  {
    n == |b| || (SequenceAt(b, n) > 0 && ValidUtf8(b, n + SequenceAt(b, n)))
  }

  /** The decoder finds a code point exactly at the sequences of the table, and of the same length. */
  lemma PointIffSequence(b: seq<Byte>, n: nat)
    requires n < |b|
    ensures PointAt(b, n) >= 0 <==> SequenceAt(b, n) > 0
    ensures SequenceAt(b, n) > 0 ==> StepAt(b, n) == SequenceAt(b, n)
  {
  }

  // The payload bits of a sequence can be read off the code point.
  lemma Payload2(x: nat, y: nat)
    requires y < 64
    ensures var p := x * 64 + y; p / 64 == x && p % 64 == y
  {
  }

  lemma Payload3(x: nat, y: nat, z: nat)
    requires y < 64 && z < 64
    ensures var p := x * 4096 + y * 64 + z; p / 4096 == x && p / 64 % 64 == y && p % 64 == z
  {
    Payload2(x * 64 + y, z);
    Payload2(x, y);
  }

  lemma Payload4(x: nat, w: nat, y: nat, z: nat)
    requires w < 64 && y < 64 && z < 64
    ensures var p := x * 0x4_0000 + w * 4096 + y * 64 + z;
            p / 0x4_0000 == x && p / 4096 % 64 == w && p / 64 % 64 == y && p % 64 == z
  {
    Payload3(x * 64 + w, y, z);
    Payload2(x, w);
  }

  lemma TailByte(b: int)
    requires 0 <= b < 0x100 && b / 64 == 2
    ensures b == 128 + b % 64
  {
  }

  lemma Restores2(a: int, b: int)
    requires 192 <= a < 224 && 0 <= b < 0x100 && b / 64 == 2
    ensures var p := Point2(a, b); p / 64 + 192 == a && p % 64 + 128 == b
  {
    TailByte(b);
    Payload2(a - 192, b % 64);
  }

  lemma Restores3(a: int, b: int, c: int)
    requires 224 <= a < 240 && 0 <= b < 0x100 && b / 64 == 2 && 0 <= c < 0x100 && c / 64 == 2
    ensures var p := Point3(a, b, c); p / 4096 + 224 == a && p / 64 % 64 + 128 == b && p % 64 + 128 == c
  {
    TailByte(b);
    TailByte(c);
    Payload3(a - 224, b % 64, c % 64);
  }

  lemma Restores4(a: int, b: int, c: int, d: int)
    requires 240 <= a < 256 && 0 <= b < 0x100 && b / 64 == 2
    requires 0 <= c < 0x100 && c / 64 == 2 && 0 <= d < 0x100 && d / 64 == 2
    ensures var p := Point4(a, b, c, d);
            && p / 0x4_0000 + 240 == a && p / 4096 % 64 + 128 == b && p / 64 % 64 + 128 == c && p % 64 + 128 == d
  {
    TailByte(b);
    TailByte(c);
    TailByte(d);
    Payload4(a - 240, b % 64, c % 64, d % 64);
  }

  /** Encoding the decoded code point restores its bytes. */
  lemma PointRestores(b: seq<Byte>, n: nat)
    requires n < |b| && PointAt(b, n) >= 0
    ensures PointBytes(PointAt(b, n)) == b[n..n + StepAt(b, n)]
  {
    var a := Announced(b[n]);
    if a == 2 {
      Restores2(b[n], b[n + 1]);
    } else if a == 3 {
      Restores3(b[n], b[n + 1], b[n + 2]);
    } else if a == 4 {
      Restores4(b[n], b[n + 1], b[n + 2], b[n + 3]);
    }
  }

  lemma CharacterShift(a: seq<Unit>, s: seq<Unit>, k: nat)
    requires k < |s|
    ensures LengthAt(a + s, |a| + k) == LengthAt(s, k) && BytesAt(a + s, |a| + k) == BytesAt(s, k)
  {
    assert (a + s)[|a| + k] == s[k] && (k + 1 < |s| ==> (a + s)[|a| + k + 1] == s[k + 1]);
    assert PairAt(a + s, |a| + k) == PairAt(s, k);
  }

  lemma {:induction false} ChunksShift(a: seq<Unit>, s: seq<Unit>, k: nat)
    requires k <= |s|
    ensures Chunks(a + s, |a| + k) == Chunks(s, k)
    decreases |s| - k
  {
    if k < |s| {
      CharacterShift(a, s, k);
      ChunksShift(a, s, k + LengthAt(s, k));
    }
  }

  lemma PairBack(p: int)
    requires 0x1_0000 <= p < 0x11_0000
    ensures var u := UnitsOf(p); |u| == 2 && IsLead(u[0]) && IsTrail(u[1]) && PairPoint(u[0], u[1]) == p
  {
  }

  lemma FirstCharacter(p: int, rest: seq<Unit>)
    requires 0 <= p < 0x11_0000 && !(0xD800 <= p < 0xE000)
    ensures var s := UnitsOf(p) + rest; LengthAt(s, 0) == |UnitsOf(p)| && BytesAt(s, 0) == PointBytes(p)
  {
    if p > 65535 {
      PairBack(p);
    }
  }

  /** Putting a decoded code point in front of a well-formed string puts its bytes in front. */
  lemma PointInFront(p: int, rest: seq<Unit>)
    requires 0 <= p < 0x11_0000 && !(0xD800 <= p < 0xE000)
    ensures Join(Chunks(UnitsOf(p) + rest, 0)) == PointBytes(p) + Join(Chunks(rest, 0))
  {
    FirstCharacter(p, rest);
    ChunksInFront(UnitsOf(p), rest, PointBytes(p));
  }

  lemma ChunksInFront(u: seq<Unit>, rest: seq<Unit>, c: seq<Byte>)
    requires u != [] && LengthAt(u + rest, 0) == |u| && BytesAt(u + rest, 0) == c
    ensures Join(Chunks(u + rest, 0)) == c + Join(Chunks(rest, 0))
  {
    ChunksShift(u, rest, 0);
    assert Chunks(u + rest, 0)[1..] == Chunks(rest, 0);
  }

  lemma RestoredInFront(b: seq<Byte>, n: nat, p: int, k: nat, rest: seq<Unit>)
    requires 0 <= p < 0x11_0000 && !(0xD800 <= p < 0xE000) && n + k <= |b|
    requires PointBytes(p) == b[n..n + k] && Join(Chunks(rest, 0)) == b[n + k..]
    ensures Join(Chunks(UnitsOf(p) + rest, 0)) == b[n..]
  {
    PointInFront(p, rest);
    assert b[n..] == b[n..n + k] + b[n + k..];
  }

  lemma RestoreStep(b: seq<Byte>, n: nat)
    requires n < |b| && PointAt(b, n) >= 0
    requires Join(Chunks(Decoded(b, n + StepAt(b, n)), 0)) == b[n + StepAt(b, n)..]
    ensures Join(Chunks(Decoded(b, n), 0)) == b[n..]
  {
    PointRestores(b, n);
    RestoredInFront(b, n, PointAt(b, n), StepAt(b, n), Decoded(b, n + StepAt(b, n)));
  }

  lemma {:induction false} ValidRestores(b: seq<Byte>, n: nat)
    requires n <= |b| && ValidUtf8(b, n)
    ensures Join(Chunks(Decoded(b, n), 0)) == b[n..]
    decreases |b| - n
  {
    if n < |b| {
      PointIffSequence(b, n);
      ValidRestores(b, n + StepAt(b, n));
      RestoreStep(b, n);
    }
  }

  lemma EncodedOfWellFormed(s: seq<Unit>)
    requires WellFormed(s, 0)
    ensures Encoded(s) == Join(Chunks(s, 0))
  {
    if s != [] {
      WellFormedEnd(s, 0);
    }
    EncodesAllIff(s);
  }

  lemma {:induction false} ValidShift(a: seq<Byte>, b: seq<Byte>, n: nat)
    requires n <= |b|
    ensures ValidUtf8(a + b, |a| + n) == ValidUtf8(b, n)
    decreases |b| - n
  {
    if n < |b| {
      assert SequenceAt(a + b, |a| + n) == SequenceAt(b, n);
      if SequenceAt(b, n) > 0 {
        ValidShift(a, b, n + SequenceAt(b, n));
      }
    }
  }

  /** The bytes of a character are one sequence of the table, whatever follows. */
  lemma PointBytesAreSequence(p: int, rest: seq<Byte>)
    requires 0 <= p < 0x11_0000 && !(0xD800 <= p < 0xE000)
    ensures SequenceAt(PointBytes(p) + rest, 0) == |PointBytes(p)|
  {
    PointBytesDecode(PointBytes(p) + rest, 0, p);
    PointIffSequence(PointBytes(p) + rest, 0);
  }

  lemma BytesAtIsPoint(s: seq<Unit>, k: nat) returns (p: int)
    requires k < |s|
    ensures 0 <= p < 0x11_0000 && !(0xD800 <= p < 0xE000) && BytesAt(s, k) == PointBytes(p)
  {
    p := if PairAt(s, k) then PairPoint(s[k], s[k + 1])
         else if IsLead(s[k]) || IsTrail(s[k]) then 0xFFFD
         else s[k];
    assert PointBytes(0xFFFD) == REPLACEMENT;
  }

  lemma {:induction false} ChunksAreValid(s: seq<Unit>, k: nat, j: nat)
    requires k <= |s| && j <= |Chunks(s, k)|
    ensures ValidUtf8(Join(Chunks(s, k)[..j]), 0)
    decreases |s| - k
  {
    if k < |s| && j > 0 {
      var p := BytesAtIsPoint(s, k);
      var c := Chunks(s, k + LengthAt(s, k));
      assert Chunks(s, k)[..j][1..] == c[..j - 1];
      ChunksAreValid(s, k + LengthAt(s, k), j - 1);
      PointBytesAreSequence(p, Join(c[..j - 1]));
      ValidShift(PointBytes(p), Join(c[..j - 1]), 0);
    }
  }

  /** Whatever the string, the encoder writes valid UTF-8. */
  lemma EncodedIsValid(s: seq<Unit>)
    ensures ValidUtf8(Encoded(s), 0)
  {
    var c := Chunks(s, 0);
    UnlimitedFits(Written(s));
    ChunksAreValid(s, 0, |Written(s)|);
    assert Written(s) == c[..|Written(s)|];
  }

  /** Encoding what was decoded gives the bytes back exactly when they are valid UTF-8. */
  lemma EncodeDecodedIff(b: seq<Byte>)
    ensures Encoded(Decoded(b, 0)) == b <==> ValidUtf8(b, 0)
  {
    EncodedIsValid(Decoded(b, 0));
    if ValidUtf8(b, 0) {
      DecodedIsWellFormed(b, 0);
      EncodedOfWellFormed(Decoded(b, 0));
      ValidRestores(b, 0);
      assert b[0..] == b;
    }
  }
}
