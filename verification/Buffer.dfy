/** Searching in and copying between the bundled Buffers. */
module Buffer {
  import opened Basics

  datatype Result = Ok(count: int) | TargetStartOutOfBounds | SourceStartOutOfBounds | SourceEndOutOfBounds

  function Min(x: int, y: int): int {
    if x < y then x else y
  }

  function Max(x: int, y: int): int {
    if x > y then x else y
  }

  // ---------------------------------------------------------------- indexOf and lastIndexOf

  /** `part` stands in the bytes at `k`. */
  predicate MatchesAt(bytes: seq<Byte>, part: seq<Byte>, k: int) {
    0 <= k && k + |part| <= |bytes| && bytes[k..k + |part|] == part
  }

  /** The least match at or after `start`, or -1 exactly when there is none. */
  ghost predicate IsFirst(bytes: seq<Byte>, part: seq<Byte>, start: int, r: int) {
    if r == -1 then forall k :: start <= k ==> !MatchesAt(bytes, part, k)
    else start <= r && MatchesAt(bytes, part, r) && forall k :: start <= k < r ==> !MatchesAt(bytes, part, k)
  }

  /** The greatest match at or before `start`, or -1 exactly when there is none. */
  ghost predicate IsLast(bytes: seq<Byte>, part: seq<Byte>, start: int, r: int) {
    if r == -1 then forall k :: k <= start ==> !MatchesAt(bytes, part, k)
    else r <= start && MatchesAt(bytes, part, r) && forall k :: r < k <= start ==> !MatchesAt(bytes, part, k)
  }

  /** One byte differs. */
  lemma MismatchAt(bytes: seq<Byte>, part: seq<Byte>, k: int, j: nat)
    requires j < |part| && 0 <= k && k + j < |bytes| && bytes[k + j] != part[j]
    ensures !MatchesAt(bytes, part, k)
  {
    if k + |part| <= |bytes| {
      assert bytes[k..k + |part|][j] != part[j];
    }
  }

  /** `v`, searching forwards: on a mismatch inside a partial match the index jumps back to its start. */
  method SearchForward(bytes: seq<Byte>, part: seq<Byte>, start: nat) returns (r: int)
    requires part != []
    ensures IsFirst(bytes, part, start, r)
  {
    var found, c := -1, start;
    while c < |bytes|
      invariant found == -1 || start <= found < c <= |bytes|
      invariant found != -1 ==> c - found < |part| && bytes[found..c] == part[..c - found]
      invariant start <= c
      invariant forall k :: start <= k < (if found == -1 then c else found) ==> !MatchesAt(bytes, part, k)
      decreases |bytes| - (if found == -1 then c else found), |bytes| - c
    {
      var j := if found == -1 then 0 else c - found;
      if bytes[c] == part[j] {
        if found == -1 {
          found := c;
        }
        assert bytes[found..c + 1] == bytes[found..c] + [bytes[c]] && part[..j + 1] == part[..j] + [part[j]];
        if c - found + 1 == |part| {
          assert part[..|part|] == part;
          return found;
        }
      } else {
        MismatchAt(bytes, part, c - j, j);
        if found != -1 {
          c := c - (c - found);
        }
        found := -1;
      }
      c := c + 1;
    }
    return -1;
  }

  /** `v`, searching backwards. */
  method SearchBackward(bytes: seq<Byte>, part: seq<Byte>, start: int) returns (r: int)
    ensures IsLast(bytes, part, start, r)
  {
    var c := if start + |part| > |bytes| then |bytes| - |part| else start;
    while c >= 0
      invariant c <= start && c + |part| <= |bytes|
      invariant forall k :: c < k <= start ==> !MatchesAt(bytes, part, k)
    {
      var found, j := true, 0;
      while j < |part| && found
        invariant j <= |part|
        invariant found ==> bytes[c..c + j] == part[..j]
        invariant !found ==> !MatchesAt(bytes, part, c)
        decreases |part| - j, found
      {
        if bytes[c + j] != part[j] {
          MismatchAt(bytes, part, c, j);
          found := false;
        } else {
          assert bytes[c..c + j + 1] == bytes[c..c + j] + [bytes[c + j]] && part[..j + 1] == part[..j] + [part[j]];
          j := j + 1;
        }
      }
      if found {
        assert part[..j] == part;
        return c;
      }
      c := c - 1;
    }
    return -1;
  }

  /** `b`: normalising the offset, then `v`. Without an offset the whole Buffer is searched; a negative one counts
      from the end; the start is kept inside forwards, and nothing is before the Buffer backwards. An empty
      pattern is never found. */
  method IndexOf(bytes: seq<Byte>, part: seq<Byte>, offset: Option<int>, forward: bool) returns (r: int)
    ensures part == [] ==> r == -1
    ensures part != [] && offset.None? ==>
              if forward then IsFirst(bytes, part, 0, r) else IsLast(bytes, part, |bytes| - 1, r)
    ensures part != [] && offset.Some? && 0 <= offset.value <= 0x7FFF_FFFF ==>
              if forward then IsFirst(bytes, part, offset.value, r) else IsLast(bytes, part, offset.value, r)
    ensures part != [] && offset.Some? && -0x8000_0000 <= offset.value < 0 ==>
              if forward then IsFirst(bytes, part, Max(|bytes| + offset.value, 0), r)
              else IsLast(bytes, part, |bytes| + offset.value, r) && (|bytes| + offset.value < 0 ==> r == -1)
    ensures part != [] && offset.Some? && offset.value > 0x7FFF_FFFF ==>
              if forward then IsFirst(bytes, part, 0x7FFF_FFFF, r) else IsLast(bytes, part, 0x7FFF_FFFF, r)
    ensures part != [] && offset.Some? && offset.value < -0x8000_0000 ==>
              if forward then IsFirst(bytes, part, Max(|bytes| - 0x8000_0000, 0), r)
              else IsLast(bytes, part, |bytes| - 0x8000_0000, r)
  {
    if |bytes| == 0 { return -1; }
    var start: int;
    match offset {
      case Some(x) =>
        start := x;
        if start > 0x7FFF_FFFF {
          start := 0x7FFF_FFFF;
        } else if start < -0x8000_0000 {
          start := -0x8000_0000;
        }
      case None =>
        start := if forward then 0 else |bytes| - 1;
    }
    if start < 0 {
      start := |bytes| + start;
    }
    if start >= |bytes| {
      if forward { return -1; }
      BeyondTheEnd(bytes, part, start);
      start := |bytes| - 1;
    } else if start < 0 {
      if !forward { return -1; }
      start := 0;
    }
    if part == [] { return -1; }
    if forward {
      r := SearchForward(bytes, part, start);
    } else {
      r := SearchBackward(bytes, part, start);
    }
  }

  lemma BeyondTheEnd(bytes: seq<Byte>, part: seq<Byte>, start: int)
    ensures part != [] ==> forall k :: |bytes| <= k <= start ==> !MatchesAt(bytes, part, k)
  {
  }

  // ---------------------------------------------------------------- copy

  /** The count that `copy` returns when it raises no error. */
  function CopyCount(targetLength: nat, sourceLength: nat, targetStart: int, sourceStart: int, sourceEnd: int): int {
    if sourceEnd == sourceStart || (0 < sourceEnd < sourceStart) || targetLength == 0 || sourceLength == 0 then 0
    else Min(Min(sourceEnd, sourceLength) - sourceStart, targetLength - Min(targetStart, targetLength))
  }

  /** What the memory is after `part` was written at b. */
  ghost predicate Placed(after: seq<Byte>, before: seq<Byte>, b: nat, part: seq<Byte>) {
    && b + |part| <= |before| == |after|
    && after[..b] == before[..b] && after[b..b + |part|] == part && after[b + |part|..] == before[b + |part|..]
  }

  lemma PlacedByByte(after: seq<Byte>, before: seq<Byte>, b: nat, part: seq<Byte>)
    requires b + |part| <= |before| == |after|
    requires forall k :: 0 <= k < |after| ==> after[k] == if b <= k < b + |part| then part[k - b] else before[k]
    ensures Placed(after, before, b, part)
  {
  }

  /** Byte k of a copy that moves its bytes up by d, lowest first, in one memory m: it reads what it has
      written d bytes before. */
  function Flow(m: seq<Byte>, a: nat, d: nat, k: nat): Byte
    requires 0 < d && a + k < |m|
  {
    if k < d then m[a + k] else Flow(m, a, d, k - d)
  }

  function Spread(m: seq<Byte>, a: nat, d: nat, n: nat): (part: seq<Byte>)
    requires 0 < d && a + n <= |m|
    ensures |part| == n && forall k :: 0 <= k < n ==> part[k] == Flow(m, a, d, k)
  {
    seq(n, k requires 0 <= k < n => Flow(m, a, d, k))
  }

  /** The range of n bytes from a on repeats with distance d. */
  ghost predicate Repeats(m: seq<Byte>, a: nat, d: nat, n: nat)
    requires 0 < d && a + n <= |m|
  {
    forall k :: a + d <= k < a + n ==> m[k] == m[k - d]
  }

  lemma {:induction false} FlowRepeats(m: seq<Byte>, a: nat, d: nat, n: nat, k: nat)
    requires 0 < d && a + n <= |m| && k < n && Repeats(m, a, d, n)
    ensures Flow(m, a, d, k) == m[a + k]
  {
    if k >= d {
      FlowRepeats(m, a, d, n, k - d);
      assert m[a + k] == m[a + k - d];
    }
  }

  /** The overtaken copy still brings the source range exactly when that range repeats. */
  lemma SpreadIsSourceIff(m: seq<Byte>, a: nat, d: nat, n: nat)
    requires 0 < d && a + n <= |m|
    ensures Spread(m, a, d, n) == m[a..a + n] <==> Repeats(m, a, d, n)
  {
    var part := Spread(m, a, d, n);
    if Repeats(m, a, d, n) {
      forall k | 0 <= k < n ensures part[k] == m[a..a + n][k] {
        FlowRepeats(m, a, d, n, k);
      }
    }
    if part == m[a..a + n] {
      forall k | a + d <= k < a + n ensures m[k] == m[k - d] {
        assert part[k - a] == m[k] && part[k - a - d] == m[k - d];
      }
    }
  }

  /** A Buffer is a stretch of a memory; slices of one Buffer share its memory. */
  class View {
    const memory: array<Byte>
    const offset: nat
    const length: nat

    constructor (memory: array<Byte>, offset: nat, length: nat)
      ensures this.memory == memory && this.offset == offset && this.length == length
    {
      this.memory, this.offset, this.length := memory, offset, length;
    }

    predicate Valid() {
      offset + length <= memory.Length
    }

    function Bytes(): seq<Byte>
      requires Valid()
      reads memory
    {
      memory[..][offset..offset + length]
    }

    /** `slice`: the ends, counted from the back if negative, lie inside, and in order; the memory is shared. */
    method Slice(start: int, end: Option<int>) returns (v: View)
      requires Valid()
      ensures v.Valid() && v.memory == memory && fresh(v)
      ensures offset <= v.offset && v.offset + v.length <= offset + length
      ensures v.Bytes() == Bytes()[v.offset - offset..v.offset - offset + v.length]
      ensures 0 <= start <= length ==> v.offset == offset + start
      ensures start > length ==> v.offset == offset + length
      ensures start < 0 <= length + start ==> v.offset == offset + length + start
      ensures length + start < 0 ==> v.offset == offset
      ensures end.None? ==> v.offset + v.length == offset + length
      ensures end.Some? && 0 <= end.value <= length ==> v.offset + v.length == Max(v.offset, offset + end.value)
      ensures end.Some? && end.value > length ==> v.offset + v.length == offset + length
      ensures end.Some? && end.value < 0 <= length + end.value ==>
                v.offset + v.length == Max(v.offset, offset + length + end.value)
      ensures end.Some? && length + end.value < 0 ==> v.length == 0
    {
      var e := Inside(start, length);
      var t := if end.Some? then Inside(end.value, length) else length;
      if t < e { t := e; }
      v := new View(memory, offset + e, t - e);
      SliceOfSlice(memory[..], offset, length, e, t);
    }
  }

  lemma SliceOfSlice(m: seq<Byte>, o: nat, n: nat, e: nat, t: nat)
    requires o + n <= |m| && e <= t <= n
    ensures m[o..o + n][e..t] == m[o + e..o + t]
  {
    var u, w := m[o..o + n][e..t], m[o + e..o + t];
    forall k | 0 <= k < t - e ensures u[k] == w[k] {
      assert u[k] == m[o..o + n][e + k];
    }
  }

  function Inside(x: int, length: nat): (k: nat)
    ensures k <= length
  {
    if x < 0 then (if x + length < 0 then 0 else x + length) else if x > length then length else x
  }

  const TYPED_LIMIT := 1000

  /** The copy overtakes its source: two Buffers over one memory, the target beginning strictly inside the
      source range, and too few bytes for the typed array's own `set`. */
  predicate Overtakes(source: View, target: View, a: nat, b: nat, n: nat) {
    source != target && source.memory == target.memory && a < b < a + n && n < TYPED_LIMIT
  }

  /** What arrives: the source range, or what the overtaken copy makes of it. */
  function Arrives(overtaken: bool, m: seq<Byte>, a: nat, b: nat, n: nat): (part: seq<Byte>)
    requires a + n <= |m| && (overtaken ==> a < b)
    ensures |part| == n
  {
    if overtaken then Spread(m, a, b - a, n) else m[a..a + n]
  }

  /** From the last byte down: for a target that begins inside the source range of the same Buffer. */
  method MoveDown(memory: array<Byte>, b: nat, a: nat, s: nat)
    requires b + s <= memory.Length && a < b
    modifies memory
    ensures Placed(memory[..], old(memory[..]), b, Arrives(false, old(memory[..]), a, b, s))
  {
    ghost var part := Arrives(false, memory[..], a, b, s);
    var n := s - 1;
    while n >= 0
      invariant -1 <= n < s
      invariant forall k :: 0 <= k < memory.Length ==>
                  memory[k] == if b + n < k < b + s then part[k - b] else old(memory[k])
    {
      memory[n + b] := memory[n + a];
      n := n - 1;
    }
    PlacedByByte(memory[..], old(memory[..]), b, part);
  }

  /** From the first byte up; inside one memory it may read what it has written. */
  method MoveUp(source: array<Byte>, target: array<Byte>, b: nat, a: nat, s: nat)
    requires b + s <= target.Length && a + s <= source.Length
    modifies target
    ensures var part := Arrives(source == target && a < b < a + s, old(source[..]), a, b, s);
            Placed(target[..], old(target[..]), b, part)
  {
    ghost var part := Arrives(source == target && a < b < a + s, source[..], a, b, s);
    var n := 0;
    while n < s
      invariant 0 <= n <= s
      invariant forall k :: 0 <= k < target.Length ==>
                  target[k] == if b <= k < b + n then part[k - b] else old(target[k])
      invariant source != target ==> source[..] == old(source[..])
    {
      target[n + b] := source[n + a];
      n := n + 1;
    }
    PlacedByByte(target[..], old(target[..]), b, part);
  }

  /** The typed array's own `set`, which reads all of its source before it writes. */
  method MoveAtOnce(source: array<Byte>, target: array<Byte>, b: nat, a: nat, s: nat)
    requires b + s <= target.Length && a + s <= source.Length
    modifies target
    ensures Placed(target[..], old(target[..]), b, Arrives(false, old(source[..]), a, b, s))
  {
    forall k | 0 <= k < s {
      target[b + k] := source[a + k];
    }
    PlacedByByte(target[..], old(target[..]), b, Arrives(false, old(source[..]), a, b, s));
  }

  method Move(source: View, target: View, t: nat, r: nat, s: nat)
    requires source.Valid() && target.Valid() && t + s <= target.length && r + s <= source.length
    modifies target.memory
    ensures var a, b := source.offset + r, target.offset + t;
            var part := Arrives(Overtakes(source, target, a, b, s), old(source.memory[..]), a, b, s);
            Placed(target.memory[..], old(target.memory[..]), b, part)
  {
    var a, b := source.offset + r, target.offset + t;
    if source == target && r < t && t < r + s {
      MoveDown(target.memory, b, a, s);
    } else if s < TYPED_LIMIT {
      assert Overtakes(source, target, a, b, s) == (source.memory == target.memory && a < b < a + s);
      MoveUp(source.memory, target.memory, b, a, s);
    } else {
      MoveAtOnce(source.memory, target.memory, b, a, s);
    }
  }

  /** `copy` from `source` to `target`, which may be one Buffer, or share their memory, or neither. */
  method Copy(source: View, target: View, targetStart: int, sourceStart: int, end: Option<int>) returns (r: Result)
    requires source.Valid() && target.Valid()
    modifies target.memory
    ensures var sourceEnd := if end.Some? then end.value else source.length;
            var early := sourceEnd == sourceStart || (0 < sourceEnd < sourceStart) || target.length == 0 || source.length == 0;
            r == (if early then Ok(0)
                  else if targetStart < 0 then TargetStartOutOfBounds
                  else if sourceStart < 0 || sourceStart >= source.length then SourceStartOutOfBounds
                  else if sourceEnd < 0 then SourceEndOutOfBounds
                  else Ok(Min(Min(sourceEnd, source.length) - sourceStart, target.length - Min(targetStart, target.length))))
            && (r.Ok? ==> r.count == CopyCount(target.length, source.length, targetStart, sourceStart, sourceEnd))
    ensures r.Ok? && r.count > 0 ==>
              && 0 <= sourceStart && 0 <= targetStart && sourceStart + r.count <= source.length
              && Min(targetStart, target.length) + r.count <= target.length
              && var a, b := source.offset + sourceStart, target.offset + Min(targetStart, target.length);
                 var part := Arrives(Overtakes(source, target, a, b, r.count), old(source.memory[..]), a, b, r.count);
                 Placed(target.memory[..], old(target.memory[..]), b, part)
    ensures !r.Ok? || r.count <= 0 ==> target.memory[..] == old(target.memory[..])
  {
    var i := if end.Some? then end.value else source.length;
    var t := targetStart;
    if t >= target.length { t := target.length; }
    if i > 0 && i < sourceStart { i := sourceStart; }
    if i == sourceStart { return Ok(0); }
    if target.length == 0 || source.length == 0 { return Ok(0); }
    if t < 0 { return TargetStartOutOfBounds; }
    if sourceStart < 0 || sourceStart >= source.length { return SourceStartOutOfBounds; }
    if i < 0 { return SourceEndOutOfBounds; }
    var s := CopyRange(source, target, t, sourceStart, i);
    return Ok(s);
  }

  /** The source range cut to what there is and to what there is room for, and moved. */
  method CopyRange(source: View, target: View, t: nat, start: nat, end: nat) returns (s: int)
    requires source.Valid() && target.Valid() && t <= target.length && start < source.length
    modifies target.memory
    ensures s == Min(Min(end, source.length) - start, target.length - t)
    ensures s > 0 ==>
              && start + s <= source.length && t + s <= target.length
              && var a, b := source.offset + start, target.offset + t;
                 var part := Arrives(Overtakes(source, target, a, b, s), old(source.memory[..]), a, b, s);
                 Placed(target.memory[..], old(target.memory[..]), b, part)
    ensures s <= 0 ==> target.memory[..] == old(target.memory[..])
  {
    var i := end;
    if i > source.length { i := source.length; }
    if target.length - t < i - start { i := target.length - t + start; }
    s := i - start;
    if s > 0 {
      Move(source, target, t, start, s);
    }
  }

  /** After a copy the target range is the old source range exactly when the source range repeats with the distance
      of the two starts, or the copy does not overtake its source: it overtakes it between two Buffers of one memory,
      upwards by less than its length, with fewer than 1000 bytes. */
  lemma CopyBringsSourceIff(source: View, target: View, m: seq<Byte>, before: seq<Byte>, after: seq<Byte>,
                            a: nat, b: nat, n: nat)
    requires a + n <= |m| && Placed(after, before, b, Arrives(Overtakes(source, target, a, b, n), m, a, b, n))
    ensures after[b..b + n] == m[a..a + n]
            <==> !(source != target && source.memory == target.memory && a < b < a + n && n < 1000)
                 || Repeats(m, a, b - a, n)
  {
    if Overtakes(source, target, a, b, n) {
      SpreadIsSourceIff(m, a, b - a, n);
    }
  }

  lemma SpreadOfFour(m: seq<Byte>)
    requires m == [1, 2, 3, 4]
    ensures Arrives(true, m, 0, 1, 3) == [1, 1, 1]
  {
    var part := Spread(m, 0, 1, 3);
    assert part[0] == m[0] && part[1] == Flow(m, 0, 1, 0) && part[2] == Flow(m, 0, 1, 1);
    assert part == [1, 1, 1];
  }

  /** Copying a Buffer of 1, 2, 3, 4 to its slice from 1 on: 1, 1, 1, 1. */
  method SliceIsOvertaken() returns (bytes: seq<Byte>)
    ensures bytes == [1, 1, 1, 1]
  {
    var memory := new Byte[4];
    memory[0], memory[1], memory[2], memory[3] := 1, 2, 3, 4;
    var a := new View(memory, 0, 4);
    var b := a.Slice(1, None);
    assert memory[..] == [1, 2, 3, 4];
    SpreadOfFour(memory[..]);
    ghost var before := memory[..];
    var r := Copy(a, b, 0, 0, Some(3));
    assert r == Ok(3);
    FourBytes(memory[..], before);
    bytes := memory[..];
  }

  lemma FourBytes(after: seq<Byte>, before: seq<Byte>)
    requires before == [1, 2, 3, 4] && Placed(after, before, 1, [1, 1, 1])
    ensures after == [1, 1, 1, 1]
  {
    assert after[0] == after[..1][0] == before[..1][0];
    assert after[1] == after[1..4][0] && after[2] == after[1..4][1] && after[3] == after[1..4][2];
  }

  /** The count is the number of bytes moved, hence not negative, exactly when the source range does not
      end at 0 before it starts; then it comes back as a negative number. */
  lemma CountIsNaturalIff(targetLength: nat, sourceLength: nat, targetStart: int, sourceStart: int, sourceEnd: int)
    requires targetLength > 0 && 0 <= targetStart && 0 <= sourceStart < sourceLength && 0 <= sourceEnd
    ensures CopyCount(targetLength, sourceLength, targetStart, sourceStart, sourceEnd) >= 0
            <==> !(sourceEnd == 0 && sourceStart > 0)
    ensures sourceEnd == 0 && sourceStart > 0
            ==> CopyCount(targetLength, sourceLength, targetStart, sourceStart, sourceEnd) == -sourceStart
  {
  }
}
