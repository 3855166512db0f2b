/**
 The byte FIFO (fio/fifo.c, fio/fifo.h): a power-of-two buffer addressed by
 two 32-bit counters that wrap freely.
 */
module Fifo {
  import opened Bits
  import opened Common
  import opened IoUQueue

  type byte = x: int | 0 <= x < 256

  // buf with its bytes from `to` on replaced by data.
  function Splice(buf: seq<byte>, to: nat, data: seq<byte>): (r: seq<byte>)
    requires to + |data| <= |buf|
    ensures |r| == |buf|
  {
    buf[..to] + data + buf[to + |data|..]
  }

  // Copies src to dst at position `to`.
  method MemCpy(dst: array<byte>, to: nat, src: seq<byte>)
    requires to + |src| <= dst.Length
    modifies dst
    ensures dst[..] == Splice(old(dst[..]), to, src)
  {
    var i := 0;
    while i < |src|
      invariant 0 <= i <= |src|
      invariant dst[..] == Splice(old(dst[..]), to, src[..i])
    {
      dst[to + i] := src[i];
      i := i + 1;
    }
  }

  // Position p moved forward by n <= size places on a circle of `size`.
  function Bump(p: nat, n: nat, size: nat): (r: nat)
    requires p < size && n <= size
    ensures r < size
  {
    if p + n < size then p + n else p + n - size
  }

  // n bytes of a circular buffer from position `start`.
  function Window(buf: seq<byte>, start: nat, n: nat): (w: seq<byte>)
    requires start < |buf| && n <= |buf|
    ensures |w| == n
  {
    seq(n, i requires 0 <= i < n => buf[Bump(start, i, |buf|)])
  }

  // The buffer after data is written around the circle from `start`.
  function CircWrite(buf: seq<byte>, start: nat, data: seq<byte>): (r: seq<byte>)
    requires start < |buf| && |data| <= |buf|
    ensures |r| == |buf|
  {
    seq(|buf|, p requires 0 <= p < |buf| =>
      if start <= p < start + |data| then data[p - start]
      else if p + |buf| < start + |data| then data[p + |buf| - start]
      else buf[p])
  }

  function Min(a: nat, b: nat): nat {
    if a < b then a else b
  }

  // The buffer position a counter stands for.
  function Pos(x: nat, size: nat): nat
    requires size > 0
  {
    And(x, size - 1)
  }

  lemma PosIsRemainder(x: nat, size: nat)
    requires IsPow2(size) && size > 0
    ensures Pos(x, size) == x % size < size
  {
    var k: nat :| size == Pow2(k);
    AndMask(x, k);
  }

  // Free-running 32-bit counters step around the buffer: the wrap of the
  // counter is invisible because the size divides 2^32.
  lemma CounterStep(x: nat, n: nat, size: nat)
    requires IsPow2(size) && 0 < size <= 0x8000_0000
    requires x < UINT_MOD && n <= size
    ensures Pos(x, size) < size
    ensures Pos(U32(x + n), size) == Bump(Pos(x, size), n, size)
  {
    PosIsRemainder(x, size);
    PosIsRemainder(U32(x + n), size);
    SizeDividesWord(size);
    WrapStep(x, n, size, UINT_MOD / size);
  }

  lemma WrapStep(x: nat, n: nat, size: nat, turns: nat)
    requires size > 0 && UINT_MOD == turns * size
    requires x < UINT_MOD && n <= size <= 0x8000_0000
    ensures U32(x + n) % size == Bump(x % size, n, size)
  {
    var q, p := x / size, x % size;
    assert x == q * size + p;
    var carry := if p + n < size then 0 else 1;
    var wrap := if x + n < UINT_MOD then 0 else 1;
    assert wrap * UINT_MOD == (wrap * turns) * size;
    assert (q + carry - wrap * turns) * size == q * size + carry * size - (wrap * turns) * size;
    DivUnique(U32(x + n), size, q + carry - wrap * turns, Bump(p, n, size));
  }

  lemma SizeDividesWord(size: nat)
    requires IsPow2(size) && size <= 0x8000_0000
    ensures size > 0 && UINT_MOD == (UINT_MOD / size) * size
  {
    var k: nat :| size == Pow2(k);
    WordPowers();
    if k > 31 { Pow2Mono(32, k); }
    Pow2Mono(k, 32);
  }

  // Writing behind the window appends to it.
  lemma WriteAppends(buf: seq<byte>, start: nat, n: nat, data: seq<byte>)
    requires start < |buf| && n + |data| <= |buf|
    ensures Window(CircWrite(buf, Bump(start, n, |buf|), data), start, n + |data|)
         == Window(buf, start, n) + data
  {
  }

  // Two straight copies make the circular write.
  lemma SplitWrite(buf: seq<byte>, start: nat, data: seq<byte>, l: nat)
    requires start < |buf| && |data| <= |buf| && l == Min(|data|, |buf| - start)
    ensures CircWrite(buf, start, data) == Splice(Splice(buf, start, data[..l]), 0, data[l..])
  {
  }

  lemma SpliceTwice(buf: seq<byte>, first: seq<byte>, rest: seq<byte>)
    requires |first| + |rest| <= |buf|
    ensures Splice(Splice(buf, 0, first), |first|, rest) == first + rest + buf[|first| + |rest|..]
  {
  }

  // Reading n bytes takes the front of the window and leaves the rest.
  lemma ReadTakes(buf: seq<byte>, start: nat, n: nat, total: nat)
    requires start < |buf| && n <= total <= |buf|
    ensures Window(buf, start, n) == Window(buf, start, total)[..n]
    ensures Window(buf, Bump(start, n, |buf|), total - n) == Window(buf, start, total)[n..]
  {
  }

  // The two memcpy calls of fifo_put.
  method CopyIn(buffer: array<byte>, start: nat, data: seq<byte>)
    requires start < buffer.Length && |data| <= buffer.Length
    modifies buffer
    ensures buffer[..] == CircWrite(old(buffer[..]), start, data)
  {
    var l := Min(|data|, buffer.Length - start);
    SplitWrite(buffer[..], start, data, l);
    MemCpy(buffer, start, data[..l]);
    MemCpy(buffer, 0, data[l..]);
  }

  // The two memcpy calls of fifo_get.
  method CopyOut(buf: seq<byte>, start: nat, dst: array<byte>, len: nat)
    requires start < |buf| && len <= |buf| && len <= dst.Length
    modifies dst
    ensures dst[..] == Window(buf, start, len) + old(dst[..])[len..]
  {
    var l := Min(len, |buf| - start);
    var first, rest := buf[start..start + l], buf[..len - l];
    SpliceTwice(dst[..], first, rest);
    MemCpy(dst, 0, first);
    MemCpy(dst, l, rest);
    assert Window(buf, start, len) == first + rest;
  }

  // A mask that is not all ones leaves some power of two out.
  lemma {:induction false} MissingBit(m: nat) returns (b: nat)
    requires m > 0 && !IsPow2(m + 1)
    ensures Pow2(b) <= m && And(Pow2(b), m) == 0
  {
    if m % 2 == 0 {
      b := 0;
      assert Pow2(0) == 1 && And(0, m / 2) == 0;
    } else {
      var h := m / 2;
      assert m == 2 * h + 1;
      if k: nat :| h + 1 == Pow2(k) {
        assert m + 1 == Pow2(k + 1);
      }
      assert Pow2(1) == 2;
      var c := MissingBit(h);
      b := c + 1;
      assert Pow2(b) / 2 == Pow2(c) && Pow2(b) % 2 == 0;
    }
  }

  /** The bytes of a full FIFO sit at different places if and only if its size is
      a power of two. */
  lemma PositionsDistinctIff(size: nat)
    requires size > 0
    ensures (forall x: nat, y: nat :: x < y < size ==> Pos(x, size) != Pos(y, size)) <==> IsPow2(size)
  {
    if IsPow2(size) {
      forall x: nat, y: nat | x < y < size ensures Pos(x, size) != Pos(y, size) {
        MaskNext(x, size);
        MaskNext(y, size);
      }
    } else {
      assert size != 1 by { assert Pow2(0) == 1; }
      var b := MissingBit(size - 1);
      assert Pos(0, size) == 0 == Pos(Pow2(b), size);
    }
  }

  lemma PowerInWord(n: nat)
    requires IsPow2(n) && n < UINT_MOD
    ensures 0 < n <= 0x8000_0000
  {
    var k: nat :| n == Pow2(k);
    WordPowers();
    if k > 31 { Pow2Mono(32, k); } else { Pow2Mono(k, 31); }
  }

  class Fifo {
    var buffer: array<byte>
    var size: nat
    var inn: nat
    var out: nat

    ghost predicate Valid()
      reads this
    {
      && IsPow2(size) && 0 < size <= 0x8000_0000 && buffer.Length == size
      && inn < UINT_MOD && out < UINT_MOD
      && Len() <= size
    }

    /** fifo_len */
    function Len(): nat
      requires inn < UINT_MOD && out < UINT_MOD
      reads this
    {
      U32(inn - out)
    }

    /** fifo_room */
    function Room(): nat
      requires Valid()
      reads this
    {
      U32(U32(size - inn) + out)
    }

    // The queued bytes, oldest first.
    ghost function Contents(): (s: seq<byte>)
      requires Valid()
      reads this, buffer
      ensures |s| == Len()
    {
      PosIsRemainder(out, size);
      Window(buffer[..], Pos(out, size), Len())
    }

    /** fifo_alloc; the callers pass a power of two. */
    constructor (size: nat)
      requires size < UINT_MOD
      ensures fresh(buffer) && this.size == size == buffer.Length && inn == out == 0
      ensures Valid() <==> IsPow2(size)
      ensures Valid() ==> Contents() == []
    {
      if IsPow2(size) {
        PowerInWord(size);
      }
      buffer := new byte[size];
      this.size := size;
      inn, out := 0, 0;
    }

    lemma Positions()
      requires Valid()
      ensures Pos(out, size) < size
      ensures Pos(inn, size) == Bump(Pos(out, size), Len(), size)
      ensures Room() == size - Len()
    {
      assert inn == U32(out + Len());
      CounterStep(out, Len(), size);
    }

    /** fifo_put: appends as much of src as fits. */
    method Put(src: seq<byte>) returns (len: nat)
      requires Valid()
      modifies this`inn, buffer
      ensures Valid()
      ensures len == Min(|src|, size - |old(Contents())|)
      ensures Contents() == old(Contents()) + src[..len]
    {
      Positions();
      len := Min(|src|, Room());
      ghost var used := Len();
      WriteAppends(buffer[..], Pos(out, size), used, src[..len]);
      CopyIn(buffer, Pos(inn, size), src[..len]);
      inn := U32(inn + len);
      assert Len() == used + len;
    }

    /** fifo_get: takes up to `want` bytes, copying them to dst unless it is null. */
    method Get(dst: array?<byte>, want: nat) returns (len: nat)
      requires Valid()
      requires dst != null ==> dst != buffer && want <= dst.Length
      modifies this`inn, this`out, dst
      ensures Valid()
      ensures len == Min(want, |old(Contents())|)
      ensures Contents() == old(Contents())[len..]
      ensures dst != null ==> dst[..] == old(Contents())[..len] + old(dst[..])[len..]
    {
      Positions();
      len := Min(want, Len());
      ghost var used := Len();
      ghost var buf := buffer[..];
      ReadTakes(buf, Pos(out, size), len, used);
      CounterStep(out, len, size);
      if dst != null {
        CopyOut(buffer[..], Pos(out, size), dst, len);
      }
      out := U32(out + len);
      assert Len() == used - len && buffer[..] == buf;
      assert Contents() == old(Contents())[len..];
      if inn == out {
        inn, out := 0, 0;
      }
    }
  }
}
