/**
 Bit-level arithmetic on natural numbers: powers of two, bitwise `&` and `|`.

 The C code masks with `x & (2^k - 1)`, tests powers of two with
 `x & (x - 1)` and builds values with `|`.  Working on naturals keeps these
 next to ordinary division and remainder.
 */
module Bits {

  function Pow2(n: nat): (r: nat)
    ensures r >= 1
  {
    if n == 0 then 1 else 2 * Pow2(n - 1)
  }

  function And(x: nat, y: nat): nat {
    if x == 0 || y == 0 then 0
    else 2 * And(x / 2, y / 2) + (if x % 2 == 1 && y % 2 == 1 then 1 else 0)
  }

  function Or(x: nat, y: nat): nat
    decreases x + y
  {
    if x == 0 then y
    else if y == 0 then x
    else 2 * Or(x / 2, y / 2) + (if x % 2 == 1 || y % 2 == 1 then 1 else 0)
  }

  // The C shift x >> n on an unsigned x.
  function Shr(x: nat, n: nat): nat {
    QuotientNonNegative(x, Pow2(n));
    x / Pow2(n)
  }

  lemma QuotientNonNegative(x: nat, d: nat)
    requires d > 0
    ensures x / d >= 0
  {
  }

  ghost predicate IsPow2(n: nat) {
    exists k: nat :: n == Pow2(k)
  }

  lemma {:induction false} Pow2Add(a: nat, b: nat)
    ensures Pow2(a + b) == Pow2(a) * Pow2(b)
  {
    if a > 0 {
      Pow2Add(a - 1, b);
      assert a + b - 1 == (a - 1) + b;
    }
  }

  lemma {:induction false} Pow2Mono(a: nat, b: nat)
    requires a <= b
    ensures Pow2(a) <= Pow2(b)
    ensures a < b ==> Pow2(a) < Pow2(b)
    ensures Pow2(b) % Pow2(a) == 0
  {
    Pow2Add(a, b - a);
    MulMod(Pow2(a), Pow2(b - a));
    if a < b {
      assert Pow2(b - a) == 2 * Pow2(b - a - 1);
      MulLe(Pow2(a), 2, Pow2(b - a));
    } else {
      assert Pow2(b - a) == 1;
    }
  }

  lemma MulMod(a: nat, b: nat)
    requires a > 0
    ensures (a * b) % a == 0
    ensures (a * b) / a == b
  {
    DivUnique(a * b, a, b, 0);
  }

  lemma MulLe(c: nat, x: nat, y: nat)
    requires x <= y
    ensures c * x <= c * y
  {
  }

  // The quotient and remainder are determined by the division identity.
  lemma DivUnique(x: int, d: int, q: int, r: int)
    requires d > 0 && 0 <= r < d
    requires x == q * d + r
    ensures x / d == q && x % d == r
  {
    var e := x / d - q;
    assert e * d == r - x % d by {
      assert x == (x / d) * d + x % d;
      assert e * d == (x / d) * d - q * d;
    }
    SmallMultiple(e, d);
  }

  lemma SmallMultiple(e: int, d: int)
    requires d > 0
    requires -d < e * d < d
    ensures e == 0
  {
  }

  lemma {:induction false} DivDiv(x: nat, a: nat, b: nat)
    requires a > 0 && b > 0
    ensures a * b > 0
    ensures (x / a) / b == x / (a * b)
  {
    var q, r := x / a, x % a;
    var q2, r2 := q / b, q % b;
    assert x == (q2 * b + r2) * a + r;
    assert x == q2 * (a * b) + (r2 * a + r) by {
      assert (q2 * b + r2) * a == q2 * (a * b) + r2 * a;
    }
    assert r2 * a + r < a * b by {
      MulLe(a, r2, b - 1);
      assert a * (b - 1) == a * b - a;
    }
    DivUnique(x, a * b, q2, r2 * a + r);
  }

  // A binary number has exactly one place for its highest bit.
  lemma {:induction false} HighestBit(x: nat) returns (k: nat)
    requires x > 0
    ensures Pow2(k) <= x < Pow2(k + 1)
  {
    if x == 1 {
      k := 0;
    } else {
      k := HighestBit(x / 2);
      k := k + 1;
    }
  }

  // x & (2^k - 1) is x mod 2^k.
  lemma {:induction false} AndMask(x: nat, k: nat)
    ensures And(x, Pow2(k) - 1) == x % Pow2(k)
  {
    if k == 0 {
      assert Pow2(k) == 1;
    } else if x == 0 {
      assert x % Pow2(k) == 0 by { DivUnique(0, Pow2(k), 0, 0); }
    } else {
      var h := Pow2(k - 1);
      AndMask(x / 2, k - 1);
      assert (2 * h - 1) / 2 == h - 1 && (2 * h - 1) % 2 == 1;
      HalfRem(x, h);
    }
  }

  // x & (x - 1) is zero exactly for powers of two (x > 0).
  lemma {:induction false} AndPred(x: nat)
    requires x > 0
    ensures And(x, x - 1) == 0 <==> IsPow2(x)
  {
    if x == 1 {
      assert x == Pow2(0);
    } else if x % 2 == 1 {
      var h := x / 2;
      AndSelf(h);
      forall k: nat ensures x != Pow2(k) {
        if k > 0 { assert Pow2(k) == 2 * Pow2(k - 1); }
      }
    } else {
      var h := x / 2;
      AndPred(h);
      assert (x - 1) / 2 == h - 1;
      if IsPow2(h) {
        var k: nat :| h == Pow2(k);
        assert x == Pow2(k + 1);
      }
      if IsPow2(x) {
        var k: nat :| x == Pow2(k);
        assert k > 0;
        assert h == Pow2(k - 1);
      }
    }
  }

  lemma {:induction false} AndSelf(x: nat)
    ensures And(x, x) == x
  {
    if x > 0 { AndSelf(x / 2); }
  }

  lemma {:induction false} OrBounds(x: nat, y: nat)
    ensures Or(x, y) >= x && Or(x, y) >= y
    decreases x + y
  {
    if x > 0 && y > 0 { OrBounds(x / 2, y / 2); }
  }

  lemma {:induction false} OrBelow(x: nat, y: nat, k: nat)
    requires x < Pow2(k) && y < Pow2(k)
    ensures Or(x, y) < Pow2(k)
  {
    if x > 0 && y > 0 {
      assert Pow2(k) == 2 * Pow2(k - 1);
      OrBelow(x / 2, y / 2, k - 1);
    }
  }

  // `|` with a number below 2^m leaves everything above bit m alone.
  lemma {:induction false} OrLow(x: nat, y: nat, m: nat)
    requires y < Pow2(m)
    ensures Or(x, y) / Pow2(m) == x / Pow2(m)
    ensures Or(x, y) % Pow2(m) == Or(x % Pow2(m), y)
  {
    if m == 0 {
    } else {
      var h := Pow2(m - 1);
      assert Pow2(m) == 2 * h;
      OrLow(x / 2, y / 2, m - 1);
      var o := Or(x, y);
      assert o / 2 == Or(x / 2, y / 2);
      assert o % 2 == (if x % 2 == 1 || y % 2 == 1 then 1 else 0);
      DivDiv(o, 2, h);
      DivDiv(x, 2, h);
      HalfRem(o, h);
      HalfRem(x, h);
      var xr := x % (2 * h);
      assert xr / 2 == (x / 2) % h && xr % 2 == x % 2;
      assert Or(xr, y) == 2 * Or(xr / 2, y / 2) + (if xr % 2 == 1 || y % 2 == 1 then 1 else 0);
    }
  }

  lemma HalfRem(x: nat, h: nat)
    requires h > 0
    ensures x % (2 * h) == 2 * ((x / 2) % h) + x % 2
  {
    var q, r := (x / 2) / h, (x / 2) % h;
    assert x / 2 == q * h + r;
    assert x == q * (2 * h) + (2 * r + x % 2);
    DivUnique(x, 2 * h, q, 2 * r + x % 2);
  }
}
