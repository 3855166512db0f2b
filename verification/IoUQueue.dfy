/**
 The containers that hold I/O units: the requeue ring and the free stack
 (fio/io_u_queue.h, fio/io_u_queue.c).
 */
module IoUQueue {
  import opened Bits
  import opened Common

  // Unsigned 32-bit wrap-around of one addition or subtraction.
  function U32(x: int): (r: nat)
    requires -UINT_MOD <= x < 2 * UINT_MOD
    ensures r < UINT_MOD
  {
    if x < 0 then x + UINT_MOD else if x < UINT_MOD then x else x - UINT_MOD
  }

  // p is the least power of two that is at least n.
  ghost predicate LeastPow2AtLeast(p: nat, n: nat) {
    IsPow2(p) && n <= p && forall k: nat :: n <= Pow2(k) ==> p <= Pow2(k)
  }

  // x fits in `width` bits and its top `ones` bits (all of them, when `ones`
  // exceeds the width) are set.
  ghost predicate TopOnes(x: nat, width: nat, ones: nat) {
    x < Pow2(width) && x >= Pow2(width) - Pow2(if ones <= width then width - ones else 0)
  }

  // One `x |= x >> r` step doubles the run of ones below the highest bit.
  lemma SmearStep(x: nat, width: nat, r: nat)
    requires r >= 1 && TopOnes(x, width, r)
    ensures TopOnes(Or(x, Shr(x, r)), width, 2 * r)
  {
    if r >= width {
      Pow2Mono(width, r);
      assert Shr(x, r) == 0 by { DivUnique(x, Pow2(r), 0, x); }
    } else {
      SmearInside(x, r, width - r);
    }
  }

  lemma SmearInside(x: nat, r: nat, m: nat)
    requires m >= 1 && r >= 1 && TopOnes(x, r + m, r)
    ensures TopOnes(Or(x, Shr(x, r)), r + m, 2 * r)
  {
    var low := Pow2(if r <= m then m - r else 0);
    assert low * Pow2(r) >= Pow2(m) by {
      if r <= m { Pow2Add(m - r, r); } else { Pow2Mono(m, r); }
    }
    Pow2Add(r, m);
    QuotientBounds(x, Pow2(r), Pow2(m), low);
    var z := Shr(x, r);
    OrLow(x, z, m);
    OrBounds(x % Pow2(m), z);
    Pow2Mono(m, r + m);
    OrBelow(x, z, r + m);
    Recombine(Or(x, z), Pow2(r), Pow2(m));
  }

  lemma QuotientBounds(x: nat, R: nat, M: nat, low: nat)
    requires R >= 1 && M >= 1 && low * R >= M
    requires R * M - M <= x < R * M
    ensures x / M == R - 1
    ensures M - low <= x / R < M
  {
    assert (R - 1) * M == R * M - M;
    DivUnique(x, M, R - 1, x - (R - 1) * M);
    var z := x / R;
    assert x == z * R + x % R;
    assert R * (M - low - 1) == R * M - low * R - R;
    if z >= M { MulLe(R, M, z); }
    if z < M - low { MulLe(R, z, M - low - 1); }
  }

  lemma Recombine(o: nat, R: nat, M: nat)
    requires M >= 1 && R >= 1 && o / M == R - 1
    ensures o == R * M - M + o % M
  {
    assert o == (o / M) * M + o % M;
    assert (R - 1) * M == R * M - M;
  }

  lemma WordPowers()
    ensures Pow2(31) == 0x8000_0000 && Pow2(32) == UINT_MOD
  {
    assert Pow2(4) == 16;
    Pow2Add(4, 4);
    Pow2Add(8, 8);
    Pow2Add(16, 16);
    assert Pow2(32) == 2 * Pow2(31);
  }

  // A number of `width` bits is rounded up to 2^width, which wraps to zero
  // exactly for the 32-bit ones.
  lemma WidthBound(nr: nat, width: nat)
    requires 0 < nr < UINT_MOD - 1 && width >= 1
    requires Pow2(width - 1) <= nr < Pow2(width)
    ensures width <= 32
    ensures width == 32 <==> nr >= 0x8000_0000
    ensures width < 32 ==> Pow2(width) < UINT_MOD && LeastPow2AtLeast(Pow2(width), nr + 1)
    ensures width == 32 ==> Pow2(width) == UINT_MOD
  {
    WordPowers();
    if width > 32 {
      Pow2Mono(32, width - 1);
    } else if width < 32 {
      Pow2Mono(width, 31);
      forall k: nat | nr + 1 <= Pow2(k) ensures Pow2(width) <= Pow2(k) {
        if k < width { Pow2Mono(k, width - 1); } else { Pow2Mono(width, k); }
      }
    }
  }

  // The five `x |= x >> r` lines of io_u_rinit.
  method SmearRight(nr: nat, ghost width: nat) returns (x: nat)
    requires width >= 1 && Pow2(width - 1) <= nr < Pow2(width)
    ensures width <= 32 ==> x == Pow2(width) - 1
  {
    x := nr;
    assert TopOnes(x, width, 1) by { assert Pow2(width) == 2 * Pow2(width - 1); }
    SmearStep(x, width, 1);
    x := Or(x, Shr(x, 1));
    SmearStep(x, width, 2);
    x := Or(x, Shr(x, 2));
    SmearStep(x, width, 4);
    x := Or(x, Shr(x, 4));
    SmearStep(x, width, 8);
    x := Or(x, Shr(x, 8));
    SmearStep(x, width, 16);
    x := Or(x, Shr(x, 16));
    assert width <= 32 ==> TopOnes(x, width, 32);
  }

  // The ring size computed by io_u_rinit for `nr` units: 32-bit arithmetic,
  // so a request of 2^31 units or more yields zero.
  method RingSize(nr: nat) returns (max: nat)
    requires nr < UINT_MOD
    ensures LeastPow2AtLeast(max, nr + 1) <==> nr < 0x8000_0000
    ensures nr >= 0x8000_0000 ==> max == 0
  {
    max := U32(nr + 1);
    var pred := U32(max - 1);
    assert nr + 1 < UINT_MOD ==> max == nr + 1 && pred == nr;
    assert nr + 1 == UINT_MOD ==> max == 0;
    if And(max, pred) != 0 {
      ghost var width := HighestBit(nr);
      width := width + 1;
      WidthBound(nr, width);
      max := SmearRight(max - 1, width);
      max := U32(max + 1);
    } else if nr + 1 < UINT_MOD {
      ExactPower(nr + 1);
    }
  }

  lemma ExactPower(n: nat)
    requires 0 < n < UINT_MOD && And(n, n - 1) == 0
    ensures n <= 0x8000_0000 && LeastPow2AtLeast(n, n)
  {
    AndPred(n);
    var k: nat :| n == Pow2(k);
    WordPowers();
    if k > 31 { Pow2Mono(32, k); } else { Pow2Mono(k, 31); }
  }

  // Masking the successor of an index below a power of two wraps it to zero.
  lemma MaskNext(x: nat, max: nat)
    requires IsPow2(max) && x <= max
    ensures And(x, max - 1) == if x == max then 0 else x
  {
    var k: nat :| max == Pow2(k);
    AndMask(x, k);
    if x == max { DivUnique(x, max, 1, 0); } else { DivUnique(x, max, 0, x); }
  }

  /** The requeue ring.  `nr` is the number of units it was sized for. */
  class Ring<T(0)> {
    var head: nat
    var tail: nat
    var max: nat
    var ring: array<T>
    ghost var nr: nat

    ghost predicate Valid()
      reads this
    {
      && IsPow2(max) && nr + 1 <= max <= 0x8000_0000
      && ring.Length == max && head < max && tail < max
    }

    // The stored units, oldest first.
    ghost function Contents(): seq<T>
      requires Valid()
      reads this, ring
    {
      if tail <= head then ring[tail..head] else ring[tail..] + ring[..head]
    }

    /** io_u_rinit; from 2^31 units on there is no ring. */
    constructor (nr: nat)
      requires nr < UINT_MOD
      ensures fresh(ring) && this.nr == nr && head == tail == 0
      ensures nr < 0x8000_0000 ==> Valid() && LeastPow2AtLeast(max, nr + 1) && Contents() == []
      ensures nr >= 0x8000_0000 ==> max == ring.Length == 0
    {
      var m := RingSize(nr);
      if nr < 0x8000_0000 {
        RingSizeBound(m, nr + 1);
      }
      max := m;
      ring := new T[m];
      head, tail := 0, 0;
      this.nr := nr;
    }

    /** io_u_rpush; `ok` is false when the code runs into assert(0).
        The full test compares an unmasked head + 1, so a ring already holding
        max - 1 units is detected only when tail is not 0; otherwise the push
        drops everything. */
    method Push(u: T) returns (ok: bool)
      requires Valid()
      modifies this`head, ring
      ensures Valid()
      ensures |old(Contents())| < nr ==> ok
      ensures |old(Contents())| < max - 1 ==> ok && Contents() == old(Contents()) + [u]
      ensures |old(Contents())| == max - 1 ==>
                if tail == 0 then ok && Contents() == [] else !ok && Contents() == old(Contents())
    {
      MaskNext(head + 1, max);
      if head + 1 != tail {
        ring[head] := u;
        head := And(head + 1, max - 1);
        ok := true;
      } else {
        ok := false;
      }
    }

    /** io_u_rpop. */
    method Pop() returns (r: Option<T>)
      requires Valid()
      modifies this`tail
      ensures Valid()
      ensures |old(Contents())| == 0 ==> r == None && Contents() == []
      ensures |old(Contents())| > 0 ==>
                r == Some(old(Contents())[0]) && Contents() == old(Contents())[1..]
    {
      MaskNext(tail + 1, max);
      if head != tail {
        assert Contents() == [ring[tail]] +
          if tail < head then ring[tail + 1..head] else ring[tail + 1..] + ring[..head];
        r := Some(ring[tail]);
        tail := And(tail + 1, max - 1);
      } else {
        r := None;
      }
    }
  }

  /** A ring sized for one unit that is pushed two: both pushes are accepted and
      the ring is empty. */
  method FullRingEmptied() returns (r: Ring<nat>, ok: bool)
    ensures ok && r.Valid() && r.nr == 1 && r.Contents() == []
  {
    r := new Ring(1);
    RingOfTwo(r.max);
    var first := r.Push(5);
    ok := r.Push(6);
    ok := first && ok;
  }

  lemma RingOfTwo(max: nat)
    requires LeastPow2AtLeast(max, 2)
    ensures max == 2
  {
    assert Pow2(1) == 2;
  }

  lemma RingSizeBound(p: nat, n: nat)
    requires LeastPow2AtLeast(p, n) && n <= 0x8000_0000
    ensures 1 <= p <= 0x8000_0000
  {
    WordPowers();
  }

  /** The free stack (struct io_u_queue); a slot above `nr` holds NULL. */
  class Stack<T> {
    var ioUs: array<Option<T>>
    var nr: nat
    const max: nat

    ghost predicate Valid()
      reads this, ioUs
    {
      nr <= max == ioUs.Length && forall i :: 0 <= i < nr ==> ioUs[i].Some?
    }

    // The stored units, the top of the stack last.
    ghost function Contents(): (s: seq<T>)
      requires Valid()
      reads this, ioUs
      ensures |s| == nr && forall i :: 0 <= i < nr ==> ioUs[i] == Some(s[i])
    {
      seq(nr, i requires 0 <= i < nr && ioUs.Length == max && nr <= max && ioUs[i].Some? reads this, ioUs =>
        ioUs[i].value)
    }

    constructor (nr: nat)
      ensures Valid() && fresh(ioUs) && max == nr && Contents() == []
    {
      ioUs := new Option<T>[nr](_ => None);
      this.nr := 0;
      max := nr;
    }

    /** io_u_qpush; `ok` is false when the code runs into assert(0). */
    method Push(u: T) returns (ok: bool)
      requires Valid()
      modifies this`nr, ioUs
      ensures Valid()
      ensures ok <==> |old(Contents())| < max
      ensures Contents() == if ok then old(Contents()) + [u] else old(Contents())
    {
      ok := nr < max;
      if ok {
        ioUs[nr] := Some(u);
        nr := nr + 1;
      }
    }

    /** io_u_qpop. */
    method Pop() returns (r: Option<T>)
      requires Valid()
      modifies this`nr, ioUs
      ensures Valid()
      ensures |old(Contents())| == 0 ==> r == None && Contents() == []
      ensures |old(Contents())| > 0 ==>
                && r == Some(old(Contents())[|old(Contents())| - 1])
                && Contents() == old(Contents())[..|old(Contents())| - 1]
    {
      if nr != 0 {
        nr := nr - 1;
        r := ioUs[nr];
        ioUs[nr] := None;
      } else {
        r := None;
      }
    }
  }
}
