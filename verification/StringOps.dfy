/** The string instructions with a repeat prefix (emulator/src/x64/cpu.cpp): what their loops amount to. */
module StringOps {
  import opened Types

  /** How many bytes `count` elements of `size` bytes take. */
  function Span(size: nat, count: nat): nat {
    if count == 0 then 0 else Span(size, count - 1) + size
  }

  lemma {:induction false} SpanIs(size: nat, count: nat)
    ensures Span(size, count) == size * count
  {
    if count > 0 { SpanIs(size, count - 1); }
  }

  lemma {:induction false} SpanAdds(size: nat, a: nat, b: nat)
    ensures Span(size, a + b) == Span(size, a) + Span(size, b)
  {
    if b > 0 { SpanAdds(size, a, b - 1); }
  }

  /** `j` modulo `off`. */
  function Back(j: nat, off: pos): (r: nat)
    ensures r < off && r <= j
  {
    if j < off then j else Back(j - off, off)
  }

  lemma {:induction false} BackIsMod(j: nat, off: pos)
    ensures Back(j, off) == j % off
  {
    if j < off {
      QuotientIs(j, off, 0, j);
    } else {
      BackIsMod(j - off, off);
      ModAddMultiple(j - off, 1, off);
    }
  }

  /** Memory after `count` elements have been moved one after the other, each read after the one before
      it was written. */
  ghost function Moved(mem: seq<byte>, dst: nat, src: nat, size: nat, count: nat): (r: seq<byte>)
    requires dst + Span(size, count) <= |mem| && src + Span(size, count) <= |mem|
    ensures |r| == |mem|
  {
    if count == 0 then mem
    else MovedOne(Moved(mem, dst, src, size, count - 1), dst + Span(size, count - 1), src + Span(size, count - 1), size)
  }

  /** Memory after the `size` bytes at `src` have been read and then written to `dst`. */
  function MovedOne(mem: seq<byte>, dst: nat, src: nat, size: nat): (r: seq<byte>)
    requires dst + size <= |mem| && src + size <= |mem|
    ensures |r| == |mem|
  {
    seq(|mem|, j requires 0 <= j < |mem| => if dst <= j < dst + size then mem[src + (j - dst)] else mem[j])
  }

  /** `r` is `mem` with the `n` bytes at `src` copied to `dst`. */
  ghost predicate Copied(mem: seq<byte>, r: seq<byte>, dst: nat, src: nat, n: nat) {
    && dst + n <= |mem| == |r| && src + n <= |mem|
    && forall j {:trigger r[j]} | 0 <= j < |mem| :: r[j] == if dst <= j < dst + n then mem[src + (j - dst)] else mem[j]
  }

  /** Moving down, or far enough up, is an exact copy. */
  lemma {:induction false} MovedIsCopy(mem: seq<byte>, dst: nat, src: nat, size: nat, count: nat)
    requires dst + Span(size, count) <= |mem| && src + Span(size, count) <= |mem|
    requires dst <= src || src + Span(size, count) <= dst
    ensures Copied(mem, Moved(mem, dst, src, size, count), dst, src, Span(size, count))
  {
    if count > 0 {
      MovedIsCopy(mem, dst, src, size, count - 1);
      CopyOne(mem, Moved(mem, dst, src, size, count - 1), dst, src, Span(size, count - 1), size);
    }
  }

  lemma CopyOne(mem: seq<byte>, before: seq<byte>, dst: nat, src: nat, n: nat, size: nat)
    requires Copied(mem, before, dst, src, n)
    requires dst + n + size <= |mem| && src + n + size <= |mem| && (dst <= src || src + n + size <= dst)
    ensures Copied(mem, MovedOne(before, dst + n, src + n, size), dst, src, n + size)
  {
    var r := MovedOne(before, dst + n, src + n, size);
    forall j | 0 <= j < |mem| ensures r[j] == if dst <= j < dst + n + size then mem[src + (j - dst)] else mem[j] {
      if dst + n <= j < dst + n + size {
        var x := src + (j - dst);
        assert before[x] == mem[x];
        assert r[j] == before[src + n + (j - (dst + n))];
      } else {
        assert r[j] == before[j];
      }
    }
  }

  /** `r` is `mem` but for `n` bytes from `dst` on, which repeat the original bytes between `src` and `dst`. */
  ghost predicate Repeats(mem: seq<byte>, r: seq<byte>, dst: nat, src: nat, n: nat) {
    && src < dst && dst + n <= |mem| == |r|
    && (forall j {:trigger r[j]} | 0 <= j < |mem| && !(dst <= j < dst + n) :: r[j] == mem[j])
    && (forall j {:trigger Back(j, dst - src)} | 0 <= j < n :: r[dst + j] == mem[src + Back(j, dst - src)])
  }

  /** Moving up by an offset of at least one element repeats the bytes in between: each destination byte is
      the original one at its distance modulo the offset. */
  lemma {:induction false} MovedIsPeriodic(mem: seq<byte>, dst: nat, src: nat, size: pos, count: nat)
    requires dst + Span(size, count) <= |mem| && src + size <= dst
    ensures Repeats(mem, Moved(mem, dst, src, size, count), dst, src, Span(size, count))
  {
    if count > 0 {
      MovedIsPeriodic(mem, dst, src, size, count - 1);
      RepeatOne(mem, Moved(mem, dst, src, size, count - 1), dst, src, Span(size, count - 1), size);
    }
  }

  lemma RepeatOne(mem: seq<byte>, before: seq<byte>, dst: nat, src: nat, n: nat, size: pos)
    requires Repeats(mem, before, dst, src, n) && dst + n + size <= |mem| && src + size <= dst
    ensures Repeats(mem, MovedOne(before, dst + n, src + n, size), dst, src, n + size)
  {
    var r, off := MovedOne(before, dst + n, src + n, size), dst - src;
    forall j {:trigger Back(j, dst - src)} | 0 <= j < n + size ensures r[dst + j] == mem[src + Back(j, off)] {
      if j < n {
        assert r[dst + j] == before[dst + j];
      } else {
        assert r[dst + j] == before[src + j];
        if j >= off { assert before[dst + (j - off)] == mem[src + Back(j - off, off)]; }
      }
    }
  }

  /** Counted in elements: with the destination `k` elements above the source, destination element `i` is
      the original source element `i` mod `k`, byte for byte. */
  lemma MovedRepeats(mem: seq<byte>, dst: nat, src: nat, size: pos, count: nat, k: pos, i: nat, j: nat)
    requires dst == src + Span(size, k) && dst + Span(size, count) <= |mem| && i < count && j < size
    ensures dst + Span(size, i) + j < dst + Span(size, count) && src + Span(size, i % k) + j < dst
    ensures Moved(mem, dst, src, size, count)[dst + Span(size, i) + j] == mem[src + Span(size, i % k) + j]
  {
    var b, at := Back(i, k), Span(size, i) + j;
    assert b == i % k by { BackIsMod(i, k); }
    assert at < Span(size, count) by { ElementInside(size, i, count, j); }
    assert Span(size, b) + j < Span(size, k) by { ElementInside(size, b, k, j); }
    assert Back(at, Span(size, k)) == Span(size, b) + j by { BackElement(i, k, size, j); }
    assert Repeats(mem, Moved(mem, dst, src, size, count), dst, src, Span(size, count)) by {
      SpanAdds(size, 1, k - 1);
      MovedIsPeriodic(mem, dst, src, size, count);
    }
  }

  lemma ElementInside(size: pos, i: nat, count: nat, j: nat)
    requires i < count && j < size
    ensures Span(size, i) + j < Span(size, count)
  {
    SpanAdds(size, i + 1, count - (i + 1));
  }

  lemma {:induction false} BackElement(i: nat, k: pos, size: pos, j: nat)
    requires j < size
    ensures Span(size, k) > 0 && Back(Span(size, i) + j, Span(size, k)) == Span(size, Back(i, k)) + j
  {
    SpanAdds(size, 1, k - 1);
    if i < k {
      SpanAdds(size, i + 1, k - (i + 1));
    } else {
      SpanAdds(size, i - k, k);
      BackElement(i - k, k, size, j);
    }
  }

  /** `r` is `mem` but for `n` bytes from `dst` on, which repeat `pattern`. */
  ghost predicate Filled(mem: seq<byte>, r: seq<byte>, dst: nat, pattern: seq<byte>, n: nat) {
    && pattern != [] && dst + n <= |mem| && |mem| == |r|
    && (forall j {:trigger r[j]} | 0 <= j < |mem| && !(dst <= j < dst + n) :: r[j] == mem[j])
    && (forall j {:trigger Back(j, |pattern|)} | 0 <= j < n :: r[dst + j] == pattern[Back(j, |pattern|)])
  }

  lemma {:induction false} BackOfSpan(size: pos, done: nat, j: nat)
    requires j < size
    ensures Back(Span(size, done) + j, size) == j
  {
    if done > 0 { BackOfSpan(size, done - 1, j); }
  }

  lemma FillOne(mem: seq<byte>, before: seq<byte>, r: seq<byte>, dst: nat, pattern: seq<byte>, done: nat)
    requires Filled(mem, before, dst, pattern, Span(|pattern|, done))
    requires dst + Span(|pattern|, done + 1) <= |mem| && |r| == |mem|
    requires var at := dst + Span(|pattern|, done); forall j {:trigger r[j]} | 0 <= j < |r| ::
      r[j] == if at <= j < at + |pattern| then pattern[j - at] else before[j]
    ensures Filled(mem, r, dst, pattern, Span(|pattern|, done + 1))
  {
    var n, size := Span(|pattern|, done), |pattern|;
    forall j {:trigger Back(j, size)} | 0 <= j < n + size ensures r[dst + j] == pattern[Back(j, size)] {
      if j >= n {
        BackOfSpan(size, done, j - n);
        assert n + (j - n) == j;
      }
    }
  }

  /** Whether element `i` from `at` on is `needle`. */
  ghost predicate IsAt(mem: seq<byte>, at: nat, needle: seq<byte>, i: nat) {
    && at + Span(|needle|, i) + |needle| <= |mem|
    && mem[at + Span(|needle|, i)..at + Span(|needle|, i) + |needle|] == needle
  }

  lemma IsAtIs(mem: seq<byte>, at: nat, needle: seq<byte>, i: nat, ptr: nat)
    requires ptr == at + Span(|needle|, i) && ptr + |needle| <= |mem|
    ensures IsAt(mem, at, needle, i) <==> mem[ptr..ptr + |needle|] == needle
  {}

  /** A search for `needle` among `count` elements from `at` on looks at `n` of them, and stays in memory:
      it stops just past the first match, or after all elements if there is none. */
  ghost predicate Looks(mem: seq<byte>, at: nat, needle: seq<byte>, count: nat, n: nat) {
    && n <= count && at + Span(|needle|, n) <= |mem|
    && (forall i {:trigger IsAt(mem, at, needle, i)} | 0 <= i && i + 1 < n :: !IsAt(mem, at, needle, i))
    && (n < count ==> n > 0 && IsAt(mem, at, needle, n - 1))
  }

  lemma LooksIsUnique(mem: seq<byte>, at: nat, needle: seq<byte>, count: nat, n: nat, m: nat)
    requires Looks(mem, at, needle, count, n) && Looks(mem, at, needle, count, m)
    ensures n == m
  {}

  /** A search never looks beyond memory: all elements lie in it, or a match does. */
  ghost predicate SearchInside(mem: seq<byte>, at: nat, needle: seq<byte>, count: nat) {
    at + Span(|needle|, count) <= |mem| || exists i: nat :: i < count && IsAt(mem, at, needle, i)
  }

  /** While nothing has matched, the next element lies in memory. */
  lemma NextInside(mem: seq<byte>, at: nat, needle: seq<byte>, count: nat, n: nat)
    requires SearchInside(mem, at, needle, count) && n < count
    requires forall i {:trigger IsAt(mem, at, needle, i)} | 0 <= i < n :: !IsAt(mem, at, needle, i)
    ensures Span(|needle|, n + 1) == Span(|needle|, n) + |needle| && at + Span(|needle|, n + 1) <= |mem|
  {
    if at + Span(|needle|, count) <= |mem| {
      SpanGrows(|needle|, n, count);
    } else {
      var i: nat :| i < count && IsAt(mem, at, needle, i);
      SpanGrows(|needle|, n, i + 1);
    }
  }

  /** What the instructions use of the processor. The accumulator holds `size` bytes. */
  class StringCpu {
    var rcx: u64
    var rsi: u64
    var rdi: u64
    var accumulator: seq<byte>
    var zero: bool
    var direction: bool
    const memory: array<byte>

    constructor (memory: array<byte>)
      ensures this.memory == memory && !direction
    {
      this.memory := memory;
      rcx, rsi, rdi, accumulator, zero, direction := 0, 0, 0, [], false, false;
    }

    /** The count that REP MOVS uses is ECX, the low half of RCX. */
    function Ecx(): (c: nat)
      reads this
      ensures c < TWO_TO_THE_32 && exists high: nat :: rcx == high * TWO_TO_THE_32 + c
    {
      assert rcx == rcx / TWO_TO_THE_32 * TWO_TO_THE_32 + rcx % TWO_TO_THE_32;
      rcx % TWO_TO_THE_32
    }

    method Read(at: u64, size: nat) returns (value: seq<byte>)
      requires at + size <= memory.Length
      ensures value == memory[at..at + size]
    {
      value := memory[at..at + size];
    }

    /** Writes a value that has been read in full. */
    method Write(at: u64, value: seq<byte>)
      requires at + |value| <= memory.Length
      modifies memory
      ensures forall j {:trigger memory[j]} | 0 <= j < memory.Length ::
        memory[j] == if at <= j < at + |value| then value[j - at] else old(memory[j])
    {
      forall j | 0 <= j < |value| { memory[at + j] := value[j]; }
    }

    /** REP MOVS of 2, 4 or 8 bytes. Fails, changing nothing, when the direction flag is set. */
    method RepMovs(size: pos) returns (ok: bool)
      requires memory.Length < TWO_TO_THE_64
      requires rdi + Span(size, Ecx()) <= memory.Length && rsi + Span(size, Ecx()) <= memory.Length
      modifies this`rcx, this`rsi, this`rdi, memory
      ensures ok <==> !direction
      ensures !ok ==> rcx == old(rcx) && rsi == old(rsi) && rdi == old(rdi) && memory[..] == old(memory[..])
      ensures ok ==>
        && memory[..] == old(Moved(memory[..], rdi, rsi, size, Ecx())) && rcx == 0
        && rsi == old(rsi + Span(size, Ecx())) && rdi == old(rdi + Span(size, Ecx()))
    {
      if direction { return false; }
      var counter := Ecx();
      var sptr, dptr := rsi, rdi;
      ghost var mem, src, dst, n, done: nat := memory[..], rsi, rdi, counter, 0;
      while counter > 0
        invariant done + counter == n && SpanWithin(size, done, n)
        invariant sptr == src + Span(size, done) && dptr == dst + Span(size, done)
        invariant memory[..] == Moved(mem, dst, src, size, done)
      {
        SpanGrows(size, done, n);
        ghost var before := memory[..];
        var val := Read(sptr, size);
        Write(dptr, val);
        assert memory[..] == MovedOne(before, dptr, sptr, size);
        sptr, dptr, counter := sptr + size, dptr + size, counter - 1;
        done := done + 1;
      }
      rcx, rsi, rdi := counter, sptr, dptr;
      ok := true;
    }

    /** REP STOS: counted by ECX for all but the 8-byte form, which uses RCX. */
    method RepStos() returns (ok: bool)
      requires memory.Length < TWO_TO_THE_64 && accumulator != []
      requires rdi + Span(|accumulator|, StosCount()) <= memory.Length
      modifies this`rcx, this`rdi, memory
      ensures ok <==> !direction
      ensures !ok ==> rcx == old(rcx) && rdi == old(rdi) && memory[..] == old(memory[..])
      ensures ok ==>
        && rcx == 0 && rdi == old(rdi + Span(|accumulator|, StosCount()))
        && Filled(old(memory[..]), memory[..], old(rdi), accumulator, old(Span(|accumulator|, StosCount())))
    {
      if direction { return false; }
      var counter := StosCount();
      var dptr := rdi;
      ghost var mem, dst, n, done: nat := memory[..], rdi, counter, 0;
      while counter > 0
        invariant done + counter == n && SpanWithin(|accumulator|, done, n)
        invariant dptr == dst + Span(|accumulator|, done)
        invariant Filled(mem, memory[..], dst, accumulator, Span(|accumulator|, done))
      {
        SpanGrows(|accumulator|, done, n);
        ghost var before := memory[..];
        Write(dptr, accumulator);
        FillOne(mem, before, memory[..], dst, accumulator, done);
        dptr, counter := dptr + |accumulator|, counter - 1;
        done := done + 1;
      }
      rcx, rdi := counter, dptr;
      ok := true;
    }

    /** The 8-byte form counts with all of RCX, the others with its low half. */
    function StosCount(): (c: nat)
      reads this
      ensures |accumulator| == 8 ==> c == rcx
      ensures |accumulator| != 8 ==> c < TWO_TO_THE_32 && exists high: nat :: rcx == high * TWO_TO_THE_32 + c
    {
      if |accumulator| == 8 then rcx else Ecx()
    }

    /** Compares the accumulator with the element at `ptr`, the n-th from `at` on. */
    method Compare(ptr: u64, ghost at: nat, ghost n: nat) returns (same: bool)
      requires ptr == at + Span(|accumulator|, n) && ptr + |accumulator| <= memory.Length
      ensures same == IsAt(memory[..], at, accumulator, n)
    {
      var val := Read(ptr, |accumulator|);
      assert val == memory[..][ptr..ptr + |accumulator|];
      same := accumulator == val;
      IsAtIs(memory[..], at, accumulator, n, ptr);
    }

    /** REPNZ SCAS: compares elements with the accumulator until one is equal, `n` in all. ZF tells whether
        the last one looked at is, and stays when none is looked at. */
    method RepnzScas() returns (ok: bool, ghost n: nat)
      requires memory.Length < TWO_TO_THE_64 && SearchInside(memory[..], rdi, accumulator, rcx)
      modifies this`rcx, this`rdi, this`zero
      ensures ok <==> !direction
      ensures !ok ==> rcx == old(rcx) && rdi == old(rdi) && zero == old(zero)
      ensures ok ==>
        && Looks(memory[..], old(rdi), accumulator, old(rcx), n)
        && rcx == old(rcx) - n && rdi == old(rdi) + Span(|accumulator|, n)
        && (if n == 0 then zero == old(zero) else zero == IsAt(memory[..], old(rdi), accumulator, n - 1))
    {
      n := 0;
      if direction { return false, 0; }
      var counter, ptr := rcx, rdi;
      ghost var mem, at, count := memory[..], rdi, rcx;
      while counter > 0
        invariant n + counter == count && ptr == at + Span(|accumulator|, n) <= memory.Length
        invariant forall i {:trigger IsAt(mem, at, accumulator, i)} | 0 <= i < n :: !IsAt(mem, at, accumulator, i)
        invariant if n == 0 then zero == old(zero) else !zero
      {
        NextInside(mem, at, accumulator, count, n);
        zero := Compare(ptr, at, n);
        ptr, counter := ptr + |accumulator|, counter - 1;
        n := n + 1;
        if zero { break; }
      }
      rcx, rdi := counter, ptr;
      ok := true;
    }

    /** REP CMPS of bytes, counted by ECX: compares until two bytes differ, `n` pairs in all. */
    method RepCmps() returns (ok: bool, ghost n: nat)
      requires memory.Length < TWO_TO_THE_64 && CompareInside(memory[..], rsi, rdi, Ecx())
      modifies this`rcx, this`rsi, this`rdi, this`zero
      ensures ok <==> !direction
      ensures !ok ==> rcx == old(rcx) && rsi == old(rsi) && rdi == old(rdi) && zero == old(zero)
      ensures ok ==>
        && Agrees(memory[..], old(rsi), old(rdi), old(Ecx()), n)
        && rcx == old(Ecx()) - n && rsi == old(rsi) + n && rdi == old(rdi) + n
        && (if n == 0 then zero == old(zero) else zero == !DiffersAt(memory[..], old(rsi), old(rdi), n - 1))
    {
      n := 0;
      if direction { return false, 0; }
      var counter, s1ptr, s2ptr := Ecx(), rsi, rdi;
      ghost var mem, s1, s2, count := memory[..], rsi, rdi, counter;
      ghost var most := ReachablePairs(mem, s1, s2, count);
      while counter > 0
        invariant n + counter == count && n <= most && s1ptr == s1 + n && s2ptr == s2 + n
        invariant forall i {:trigger DiffersAt(mem, s1, s2, i)} | 0 <= i < n :: !DiffersAt(mem, s1, s2, i)
        invariant if n == 0 then zero == old(zero) else zero
      {
        assert n < most;
        zero := memory[s1ptr] == memory[s2ptr];
        assert zero <==> !DiffersAt(mem, s1, s2, n);
        s1ptr, s2ptr, counter := s1ptr + 1, s2ptr + 1, counter - 1;
        n := n + 1;
        if !zero { break; }
      }
      rcx, rsi, rdi := counter, s1ptr, s2ptr;
      ok := true;
    }
  }

  /** A comparison never looks beyond memory: all bytes lie in it, or two that differ do. */
  ghost predicate CompareInside(mem: seq<byte>, s1: nat, s2: nat, count: nat) {
    (s1 + count <= |mem| && s2 + count <= |mem|) || exists i: nat :: i < count && DiffersAt(mem, s1, s2, i)
  }

  ghost predicate DiffersAt(mem: seq<byte>, s1: nat, s2: nat, i: nat) {
    s1 + i < |mem| && s2 + i < |mem| && mem[s1 + i] != mem[s2 + i]
  }

  ghost function ReachablePairs(mem: seq<byte>, s1: nat, s2: nat, count: nat): (m: nat)
    requires CompareInside(mem, s1, s2, count)
    ensures m <= count && s1 + m <= |mem| && s2 + m <= |mem|
    ensures m < count ==> m > 0 && DiffersAt(mem, s1, s2, m - 1)
  {
    if s1 + count <= |mem| && s2 + count <= |mem| then count
    else
      var i: nat :| i < count && DiffersAt(mem, s1, s2, i);
      i + 1
  }

  /** A comparison of `count` bytes at `s1` and `s2` looks at `n` of each, all equal but perhaps the last. */
  ghost predicate Agrees(mem: seq<byte>, s1: nat, s2: nat, count: nat, n: nat) {
    && n <= count && s1 + n <= |mem| && s2 + n <= |mem|
    && (forall i {:trigger DiffersAt(mem, s1, s2, i)} | 0 <= i && i + 1 < n :: !DiffersAt(mem, s1, s2, i))
    && (n < count ==> n > 0 && DiffersAt(mem, s1, s2, n - 1))
  }

  /** The first `done` of `n` elements fit where all do. */
  ghost predicate SpanWithin(size: nat, done: nat, n: nat) {
    done <= n && Span(size, done) <= Span(size, n)
  }

  lemma SpanGrows(size: nat, done: nat, n: nat)
    requires done < n
    ensures Span(size, done + 1) == Span(size, done) + size <= Span(size, n)
  {
    SpanAdds(size, done + 1, n - (done + 1));
  }

  /** The complement of a 64-bit register. */
  function Not(x: u64): u64 { TWO_TO_THE_64 - 1 - x }

  /** The usual strlen: scanning for a zero byte with RCX at its greatest leaves ~RCX - 1 equal to the
      length of the string. */
  lemma StringLength(mem: seq<byte>, at: nat, length: nat, n: nat)
    requires at + length < |mem| < TWO_TO_THE_64 && mem[at + length] == 0
    requires forall x | at <= x < at + length :: mem[x] != 0
    ensures SearchInside(mem, at, [0], TWO_TO_THE_64 - 1) && Looks(mem, at, [0], TWO_TO_THE_64 - 1, length + 1)
    ensures Looks(mem, at, [0], TWO_TO_THE_64 - 1, n) ==> Not(TWO_TO_THE_64 - 1 - n) - 1 == length
  {
    forall i | 0 <= i <= length ensures IsAt(mem, at, [0], i) <==> mem[at + i] == 0 {
      SpanIs(1, i);
      assert mem[at + i..at + i + 1] == [mem[at + i]];
    }
    SpanIs(1, length + 1);
    assert IsAt(mem, at, [0], length);
    if Looks(mem, at, [0], TWO_TO_THE_64 - 1, n) { LooksIsUnique(mem, at, [0], TWO_TO_THE_64 - 1, n, length + 1); }
  }
}
