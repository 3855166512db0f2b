/**
 Conversion of CPU cycles to nanoseconds (fio/gettime.c): the integer part of
 calibrate_cpu_clock and the CS_CPUCLOCK branch of __fio_gettime.

 All arithmetic is on 64-bit unsigned numbers; `Mul64` and `Add64` wrap, and
 the calibration is proved never to reach the wrap.
 */
module Clock {
  import opened Bits

  const U64_MOD: nat := 0x1_0000_0000_0000_0000
  const MAX_CLOCK_SEC: nat := 3600

  // The cycles in MAX_CLOCK_SEC, divided by the cycles per millisecond.
  const MSECS: nat := 3_600_000

  function Mul64(a: nat, b: nat): nat { (a * b) % U64_MOD }
  function Add64(a: nat, b: nat): nat { (a + b) % U64_MOD }

  // The static variables filled by the calibration.
  datatype Params = Params(
    clockShift: nat,
    clockMult: nat,
    maxCyclesShift: nat,
    maxCyclesMask: nat,
    nsecsForMaxCycles: nat)

  // The largest multiplier that keeps the product with MAX_CLOCK_SEC worth of
  // cycles within 64 bits.
  function MaxMult(c: nat): nat
    requires c > 0
  {
    QuotientNonNegative(U64_MOD - 1, MSECS * c);
    (U64_MOD - 1) / (MSECS * c)
  }

  // The shift is as large as that multiplier allows, and a chunk as large a
  // power of two as fits MAX_CLOCK_SEC.
  ghost predicate Widest(p: Params, c: nat)
    requires c > 0
  {
    && Pow2(p.clockShift) * 1_000_000 <= MaxMult(c) * c < Pow2(p.clockShift + 1) * 1_000_000
    && Pow2(p.maxCyclesShift) <= MSECS * c < Pow2(p.maxCyclesShift + 1)
  }

  // A calibrated clock: the multiplier is the rounded-down fixed-point value
  // of nanoseconds per cycle, and a chunk of 2^maxCyclesShift cycles converts
  // to a whole number of nanoseconds within 64 bits.
  ghost predicate Calibrated(p: Params, c: nat) {
    && c > 0
    && p.clockMult == Pow2(p.clockShift) * 1_000_000 / c
    && p.maxCyclesMask == Pow2(p.maxCyclesShift) - 1
    && Pow2(p.clockShift) * p.nsecsForMaxCycles == Pow2(p.maxCyclesShift) * p.clockMult
    && Pow2(p.maxCyclesShift) * p.clockMult < U64_MOD
  }

  // while (tmp > 1) { tmp >>= 1; sft++; }
  method FloorLog2(x: nat) returns (shift: nat)
    requires x > 0
    ensures Pow2(shift) <= x < Pow2(shift + 1)
  {
    var tmp := x;
    shift := 0;
    while tmp > 1
      invariant tmp >= 1
      invariant Pow2(shift) * tmp <= x < Pow2(shift) * (tmp + 1)
      decreases tmp
    {
      HalfStep(x, Pow2(shift), tmp);
      tmp := tmp / 2;
      shift := shift + 1;
    }
  }

  lemma HalfStep(x: nat, p: nat, tmp: nat)
    requires p * tmp <= x < p * (tmp + 1)
    ensures 2 * p * (tmp / 2) <= x < 2 * p * (tmp / 2 + 1)
  {
    MulLe(p, 2 * (tmp / 2), tmp);
    MulLe(p, tmp + 1, 2 * (tmp / 2) + 2);
    assert p * (2 * (tmp / 2)) == 2 * p * (tmp / 2);
    assert p * (2 * (tmp / 2) + 2) == 2 * p * (tmp / 2 + 1);
  }

  // for (tmp = 0; tmp < shift; tmp++) mask |= 1ULL << tmp;
  method BuildMask(shift: nat) returns (mask: nat)
    ensures mask == Pow2(shift) - 1
  {
    mask := 0;
    var bit := 0;
    while bit < shift
      invariant 0 <= bit <= shift && mask == Pow2(bit) - 1
    {
      OrNextBit(bit);
      mask := Or(mask, Pow2(bit));
      bit := bit + 1;
    }
  }

  lemma {:induction false} OrNextBit(k: nat)
    ensures Or(Pow2(k) - 1, Pow2(k)) == Pow2(k + 1) - 1
  {
    if k > 0 {
      OrNextBit(k - 1);
      var h := Pow2(k - 1);
      assert (2 * h - 1) / 2 == h - 1 && (2 * h - 1) % 2 == 1;
      assert (2 * h) / 2 == h;
    }
  }

  // ---------------------------------------------------------- calibration

  // The arithmetic behind the choice of the shift: M ticks in MAX_CLOCK_SEC,
  // m the largest multiplier that keeps M * m within 64 bits.
  lemma ShiftBounds(c: nat, M: nat, m: nat)
    requires c > 0 && M == MSECS * c < U64_MOD && m == (U64_MOD - 1) / M
    ensures m >= 1 && m * M < U64_MOD && m * c < U64_MOD
    ensures 1 <= m * c / 1_000_000 < 8_388_608
  {
    var n := U64_MOD - 1;
    assert n == m * M + n % M;
    if m == 0 { DivUnique(n, M, 0, n); }
    assert m * M == MSECS * (m * c);
    MulLe(M, 1, m);
    assert MSECS * (m * c) > (n - M) && MSECS * (m * c) >= M;
  }

  lemma MultiplierFits(c: nat, m: nat, tmp: nat, p: nat)
    requires c > 0 && tmp == m * c / 1_000_000 && p <= tmp
    ensures p * 1_000_000 / c <= m
  {
    var mult := p * 1_000_000 / c;
    assert mult * c <= p * 1_000_000 <= m * c;
    if mult > m { MulLe(c, m + 1, mult); }
  }

  lemma ProductFits(p: nat, M: nat, mult: nat, m: nat)
    requires p <= M && mult <= m && m * M < U64_MOD
    ensures p * mult < U64_MOD
  {
    MulLe(p, mult, m);
    MulLe(m, p, M);
  }

  lemma Pow22()
    ensures Pow2(22) == 4_194_304 && Pow2(23) == 8_388_608
  {
    assert Pow2(4) == 16 && Pow2(6) == 64;
    Pow2Add(4, 4);
    Pow2Add(8, 8);
    Pow2Add(16, 6);
  }

  lemma Narrow(shift: nat, chunk: nat, c: nat)
    requires Pow2(shift) < 8_388_608 && c > 1 && MSECS * c < Pow2(chunk + 1)
    ensures shift <= 22 <= chunk
  {
    Pow22();
    if shift > 22 { Pow2Mono(23, shift); }
    if chunk < 22 { Pow2Mono(chunk + 1, 22); }
  }

  // A chunk is at least as wide as the shift, except at one cycle per
  // millisecond, where the multiplier itself is a multiple of 2^shift.
  lemma ChunkIsWhole(c: nat, shift: nat, chunk: nat, mult: nat) returns (q: nat)
    requires c > 0 && Pow2(shift) < 8_388_608 && mult == Pow2(shift) * 1_000_000 / c
    requires MSECS * c < Pow2(chunk + 1)
    ensures Pow2(chunk) * mult == Pow2(shift) * q
  {
    if c == 1 {
      var x := Pow2(shift) * 1_000_000;
      assert mult == x by { DivUnique(x, 1, x, 0); }
      q := 1_000_000 * Pow2(chunk);
      Commute(Pow2(chunk), Pow2(shift));
    } else {
      Narrow(shift, chunk, c);
      Pow2Add(shift, chunk - shift);
      q := Pow2(chunk - shift) * mult;
      Assoc(Pow2(shift), Pow2(chunk - shift), mult);
    }
  }

  lemma Assoc(a: nat, b: nat, c: nat)
    ensures a * b * c == a * (b * c)
  {
  }

  lemma Commute(a: nat, b: nat)
    ensures a * (b * 1_000_000) == b * (1_000_000 * a)
  {
  }

  lemma NoWrap(a: nat, b: nat)
    requires a * b < U64_MOD
    ensures Mul64(a, b) == a * b
  {
  }

  lemma Millions(x: nat, p: nat, q: nat)
    requires p <= x / 1_000_000 < q
    ensures p * 1_000_000 <= x < q * 1_000_000
  {
  }

  // max_ticks and max_mult
  method LargestMult(c: nat) returns (maxMult: nat)
    requires 0 < c && MSECS * c < U64_MOD
    ensures maxMult == MaxMult(c) && maxMult * (MSECS * c) < U64_MOD && maxMult * c < U64_MOD
    ensures 1 <= maxMult * c / 1_000_000 < 8_388_608
  {
    NoWrap(MAX_CLOCK_SEC, c);
    NoWrap(MAX_CLOCK_SEC * c, 1000);
    var maxTicks := Mul64(Mul64(MAX_CLOCK_SEC, c), 1000);
    assert maxTicks == MSECS * c;
    maxMult := (U64_MOD - 1) / maxTicks;
    ShiftBounds(c, maxTicks, maxMult);
  }

  // The first half of the integer part: clock_shift and clock_mult.
  method ChooseShift(c: nat) returns (clockShift: nat, clockMult: nat)
    requires 0 < c && MSECS * c < U64_MOD
    ensures Pow2(clockShift) < 8_388_608 && clockMult == Pow2(clockShift) * 1_000_000 / c
    ensures clockMult <= MaxMult(c) && MaxMult(c) * (MSECS * c) < U64_MOD
    ensures Pow2(clockShift) * 1_000_000 <= MaxMult(c) * c < Pow2(clockShift + 1) * 1_000_000
  {
    var maxMult := LargestMult(c);
    NoWrap(maxMult, c);
    var tmp := Mul64(maxMult, c) / 1_000_000;
    clockShift := FloorLog2(tmp);
    Millions(maxMult * c, Pow2(clockShift), Pow2(clockShift + 1));
    NoWrap(Pow2(clockShift), 1_000_000);
    clockMult := Mul64(Pow2(clockShift), 1_000_000) / c;
    MultiplierFits(c, maxMult, tmp, Pow2(clockShift));
  }

  // calibrate_cpu_clock from cycles_per_msec on, for every frequency whose
  // ticks in MAX_CLOCK_SEC fit 64 bits.
  method Calibrate(c: nat) returns (p: Params)
    requires 0 < c && MSECS * c < U64_MOD
    ensures Calibrated(p, c) && Widest(p, c)
  {
    var clockShift, clockMult := ChooseShift(c);
    NoWrap(MAX_CLOCK_SEC, 1000);
    NoWrap(MSECS, c);
    var ticks := Mul64(Mul64(MAX_CLOCK_SEC, 1000), c);
    assert ticks == MSECS * c;
    var maxCyclesShift := FloorLog2(ticks);
    ProductFits(Pow2(maxCyclesShift), ticks, clockMult, MaxMult(c));
    ghost var q := ChunkIsWhole(c, clockShift, maxCyclesShift, clockMult);
    NoWrap(Pow2(maxCyclesShift), clockMult);
    MulMod(Pow2(clockShift), q);
    var nsecsForMaxCycles := Shr(Mul64(Pow2(maxCyclesShift), clockMult), clockShift);
    var maxCyclesMask := BuildMask(maxCyclesShift);
    p := Params(clockShift, clockMult, maxCyclesShift, maxCyclesMask, nsecsForMaxCycles);
  }

  // ---------------------------------------------------------------- reading

  // The split conversion of __fio_gettime for t elapsed cycles.
  function Nsecs(p: Params, t: nat): nat {
    var multiples := Shr(t, p.maxCyclesShift);
    var nsecs := Mul64(multiples, p.nsecsForMaxCycles);
    Add64(nsecs, Shr(Mul64(And(t, p.maxCyclesMask), p.clockMult), p.clockShift))
  }

  // The unsplit fixed-point product, over unbounded integers.
  function Exact(p: Params, t: nat): nat {
    Shr(t * p.clockMult, p.clockShift)
  }

  // The split form computes exactly the fixed-point product (modulo 2^64),
  // and no product of the remainder part wraps.
  lemma SplitIsExact(p: Params, c: nat, t: nat)
    requires Calibrated(p, c)
    ensures Nsecs(p, t) == Exact(p, t) % U64_MOD
    ensures And(t, p.maxCyclesMask) * p.clockMult < U64_MOD
  {
    AndMask(t, p.maxCyclesShift);
    var q, r := Shr(t, p.maxCyclesShift), And(t, p.maxCyclesMask);
    DivisionIdentity(t, Pow2(p.maxCyclesShift));
    SplitCore(t, Pow2(p.maxCyclesShift), Pow2(p.clockShift), p.clockMult, p.nsecsForMaxCycles, q, r);
    assert Nsecs(p, t) == Add64(Mul64(q, p.nsecsForMaxCycles), Shr(Mul64(r, p.clockMult), p.clockShift));
  }

  lemma DivisionIdentity(t: nat, d: nat)
    requires d > 0
    ensures t == (t / d) * d + t % d && 0 <= t % d < d && t / d >= 0
  {
  }

  lemma SplitCore(t: nat, C: nat, P: nat, mult: nat, n: nat, q: nat, r: nat)
    requires C > 0 && P > 0 && t == q * C + r && r < C && P * n == C * mult < U64_MOD
    ensures r * mult < U64_MOD
    ensures Add64(Mul64(q, n), Mul64(r, mult) / P) == (t * mult / P) % U64_MOD
  {
    MulLe(mult, r, C);
    NoWrap(r, mult);
    SplitProduct(t, C, P, mult, n, q, r);
    WrapSum(q * n, r * mult / P);
  }

  lemma SplitProduct(t: nat, C: nat, P: nat, mult: nat, n: nat, q: nat, r: nat)
    requires C > 0 && P > 0 && t == q * C + r && P * n == C * mult
    ensures t * mult / P == q * n + r * mult / P
  {
    var low, rem := r * mult / P, r * mult % P;
    assert r * mult == low * P + rem;
    assert t * mult == q * (C * mult) + r * mult by {
      assert (q * C + r) * mult == q * (C * mult) + r * mult;
    }
    assert q * (P * n) == (q * n) * P;
    assert t * mult == (q * n + low) * P + rem;
    DivUnique(t * mult, P, q * n + low, rem);
  }

  lemma WrapSum(a: nat, b: nat)
    ensures (a % U64_MOD + b) % U64_MOD == (a + b) % U64_MOD
  {
  }

  // The clock does not run backwards, across chunk boundaries included, as
  // long as the result still fits.
  lemma Monotone(p: Params, c: nat, t: nat, t': nat)
    requires Calibrated(p, c) && t <= t' && Exact(p, t') < U64_MOD
    ensures Nsecs(p, t) <= Nsecs(p, t')
  {
    ExactMono(p, t, t');
    FitsExactly(p, c, t);
    FitsExactly(p, c, t');
  }

  // While the product fits, the split form is the product.
  lemma FitsExactly(p: Params, c: nat, t: nat)
    requires Calibrated(p, c) && Exact(p, t) < U64_MOD
    ensures Nsecs(p, t) == Exact(p, t)
  {
    SplitIsExact(p, c, t);
    SmallMod(Exact(p, t));
  }

  lemma SmallMod(x: nat)
    requires x < U64_MOD
    ensures x % U64_MOD == x
  {
  }

  lemma ExactMono(p: Params, t: nat, t': nat)
    requires t <= t'
    ensures Exact(p, t) <= Exact(p, t')
  {
    MulLe(p.clockMult, t, t');
    DivMono(t * p.clockMult, t' * p.clockMult, Pow2(p.clockShift));
  }

  lemma DivMono(a: nat, b: nat, d: nat)
    requires a <= b && d > 0
    ensures a / d <= b / d
  {
    assert a == (a / d) * d + a % d && b == (b / d) * d + b % d;
    if a / d > b / d { MulLe(d, b / d + 1, a / d); }
  }

  // The clock is never ahead of t * 10^6 / c nanoseconds and is behind by
  // less than 1 + t / 2^shift of them (both sides multiplied out).
  lemma ErrorBound(p: Params, c: nat, t: nat)
    requires Calibrated(p, c) && Exact(p, t) < U64_MOD
    ensures var n, P := Nsecs(p, t), Pow2(p.clockShift);
            && n * c <= t * 1_000_000
            && t * 1_000_000 * P < n * c * P + c * P + t * c
  {
    FitsExactly(p, c, t);
    ExactIsFixedPoint(p, c, t);
  }

  // Up to 9 * 10^11 cycles a millisecond the shift is 22.
  lemma ShiftIs22(p: Params, c: nat)
    requires 0 < c <= 900_000_000_000 && Widest(p, c)
    ensures p.clockShift == 22 && Pow2(p.clockShift) == 4_194_304
  {
    ShiftRange(c);
    Pow22();
    if p.clockShift < 22 {
      Pow2Mono(p.clockShift + 1, 22);
    } else if p.clockShift > 22 {
      Pow2Mono(23, p.clockShift);
    }
  }

  lemma ShiftRange(c: nat)
    requires 0 < c <= 900_000_000_000
    ensures 4_194_304 * 1_000_000 <= MaxMult(c) * c < 8_388_608 * 1_000_000
  {
    var n, M := U64_MOD - 1, MSECS * c;
    assert n == MaxMult(c) * M + n % M && n % M < M;
    assert MaxMult(c) * M == MSECS * (MaxMult(c) * c);
  }

  // So the clock is never ahead of the true time, and behind it by less than
  // one nanosecond and one in 2^22 of the elapsed cycles.
  lemma LagBound(p: Params, c: nat, t: nat)
    requires Calibrated(p, c) && Widest(p, c) && c <= 900_000_000_000 && Exact(p, t) < U64_MOD
    ensures Nsecs(p, t) * c <= t * 1_000_000
    ensures t * 1_000_000 * 4_194_304 < (Nsecs(p, t) * c + c) * 4_194_304 + t * c
  {
    ErrorBound(p, c, t);
    ShiftIs22(p, c);
    Spread(Nsecs(p, t) * c, c);
  }

  lemma Spread(a: nat, b: nat)
    ensures (a + b) * 4_194_304 == a * 4_194_304 + b * 4_194_304
  {
  }

  lemma ExactIsFixedPoint(p: Params, c: nat, t: nat)
    requires c > 0 && p.clockMult == Pow2(p.clockShift) * 1_000_000 / c
    ensures var e, P := Exact(p, t), Pow2(p.clockShift);
            && e * c <= t * 1_000_000
            && t * 1_000_000 * P < e * c * P + c * P + t * c
  {
    FixedPointBelow(t, c, Pow2(p.clockShift), p.clockMult, Exact(p, t));
    FixedPointAbove(t, c, Pow2(p.clockShift), p.clockMult, Exact(p, t));
  }

  lemma FixedPointBelow(t: nat, c: nat, P: nat, mult: nat, e: nat)
    requires c > 0 && P > 0 && mult == P * 1_000_000 / c && e == t * mult / P
    ensures e * c <= t * 1_000_000
  {
    assert e * P <= t * mult;
    assert mult * c <= P * 1_000_000;
    MulLe(c, e * P, t * mult);
    MulLe(t, mult * c, P * 1_000_000);
    assert (e * c) * P <= (t * 1_000_000) * P;
    if e * c > t * 1_000_000 { MulLe(P, t * 1_000_000 + 1, e * c); }
  }

  lemma FixedPointAbove(t: nat, c: nat, P: nat, mult: nat, e: nat)
    requires c > 0 && P > 0 && mult == P * 1_000_000 / c && e == t * mult / P
    ensures t * 1_000_000 * P < e * c * P + c * P + t * c
  {
    assert t * mult < (e + 1) * P;
    assert P * 1_000_000 < (mult + 1) * c;
    assert t * (P * 1_000_000) <= t * ((mult + 1) * c);
    assert t * ((mult + 1) * c) == (t * mult) * c + t * c;
    assert (t * mult) * c < ((e + 1) * P) * c;
    assert ((e + 1) * P) * c == e * c * P + c * P;
  }

  // ------------------------------------------------------- time differences

  const NSEC_PER_SEC: int := 1_000_000_000

  // A struct timespec as the kernel and __fio_gettime fill it.
  datatype Timespec = Timespec(sec: int, nsec: int)

  predicate Normal(ts: Timespec) { 0 <= ts.nsec < NSEC_PER_SEC }

  // The instant a timespec stands for.
  function Instant(ts: Timespec): int { ts.sec * NSEC_PER_SEC + ts.nsec }

  // tp->tv_sec = nsecs / 1000000000; tp->tv_nsec = nsecs % 1000000000
  function FromNsecs(n: nat): (ts: Timespec)
    ensures Normal(ts) && Instant(ts) == n
  {
    Timespec(n / NSEC_PER_SEC, n % NSEC_PER_SEC)
  }

  function NtimeSince(s: Timespec, e: Timespec): int {
    var sec0, nsec0 := e.sec - s.sec, e.nsec - s.nsec;
    var borrow := sec0 > 0 && nsec0 < 0;
    var sec := if borrow then sec0 - 1 else sec0;
    var nsec := if borrow then nsec0 + NSEC_PER_SEC else nsec0;
    if sec < 0 || (sec == 0 && nsec < 0) then 0 else nsec + sec * NSEC_PER_SEC
  }

  // C division by 1000, which truncates toward zero.
  function TruncDiv1000(x: int): int {
    if x >= 0 then x / 1000 else -((-x) / 1000)
  }

  function UtimeSince(s: Timespec, e: Timespec): int {
    var sec0, usec0 := e.sec - s.sec, TruncDiv1000(e.nsec - s.nsec);
    var borrow := sec0 > 0 && usec0 < 0;
    var sec := if borrow then sec0 - 1 else sec0;
    var usec := if borrow then usec0 + 1_000_000 else usec0;
    if sec < 0 || (sec == 0 && usec < 0) then 0 else usec + sec * 1_000_000
  }

  function RelTimeSince(s: Timespec, e: Timespec): int {
    var sec0, nsec0 := e.sec - s.sec, e.nsec - s.nsec;
    var sec := if nsec0 < 0 then sec0 - 1 else sec0;
    var nsec := if nsec0 < 0 then nsec0 + NSEC_PER_SEC else nsec0;
    sec * 1000 + nsec / 1_000_000
  }

  function MtimeSince(s: Timespec, e: Timespec): int {
    var r := RelTimeSince(s, e);
    if r > 0 then r else 0
  }

  // Nanosecond and millisecond differences are the true difference of the
  // instants: clamped at zero, rounded down, or both.
  lemma DifferencesAreTrue(s: Timespec, e: Timespec)
    requires Normal(s) && Normal(e)
    ensures var d := Instant(e) - Instant(s);
            && NtimeSince(s, e) == (if d < 0 then 0 else d)
            && RelTimeSince(s, e) == d / 1_000_000
            && MtimeSince(s, e) == (if d < 0 then 0 else d / 1_000_000)
  {
  }

  // The microsecond difference truncates before it borrows.  It is the true
  // difference rounded down exactly when the end lies before the start, or
  // the nanosecond fields need no borrow, or differ by whole microseconds;
  // otherwise it is one too large.
  lemma MicrosecondsExactWhen(s: Timespec, e: Timespec)
    requires Normal(s) && Normal(e)
    ensures var d := Instant(e) - Instant(s);
            var floor := if d < 0 then 0 else d / 1000;
            && (UtimeSince(s, e) == floor <==>
                  d < 0 || e.nsec >= s.nsec || (s.nsec - e.nsec) % 1000 == 0)
            && (UtimeSince(s, e) == floor || UtimeSince(s, e) == floor + 1)
  {
  }

  // From 0.0000015 s to 1.000000 s are 999998.5 microseconds.
  lemma MicrosecondTooMany()
    ensures UtimeSince(Timespec(0, 1_500), Timespec(1, 0)) == 999_999
    ensures (Instant(Timespec(1, 0)) - Instant(Timespec(0, 1_500))) / 1000 == 999_998
  {
  }

  // Two readings of the calibrated clock differ by exactly the nanoseconds
  // the fixed-point product puts between them.
  lemma ElapsedBetweenReadings(p: Params, c: nat, t: nat, t': nat)
    requires Calibrated(p, c) && t <= t' && Exact(p, t') < U64_MOD
    ensures NtimeSince(FromNsecs(Nsecs(p, t)), FromNsecs(Nsecs(p, t'))) == Exact(p, t') - Exact(p, t)
    ensures Exact(p, t') - Exact(p, t) >= 0
  {
    ExactMono(p, t, t');
    FitsExactly(p, c, t);
    FitsExactly(p, c, t');
    DifferencesAreTrue(FromNsecs(Nsecs(p, t)), FromNsecs(Nsecs(p, t')));
  }
}
