/** gettime.c: CPU cycles to nanoseconds by a multiplication and a shift, in blocks of a power
    of two cycles so that the product fits 64 bits.  Products and sums wrap at 64 bits. */
module Clock {
  import opened Bits

  /** MAX_CLOCK_SEC, in milliseconds. */
  const MAX_CLOCK_MSEC: nat := 3600000

  /** The range of cycles_per_msec covered: up to a clock of 1000 GHz. */
  predicate Plausible(cpm: nat) {
    1 <= cpm <= 1000000000
  }

  function Mul64(x: nat, y: nat): nat {
    x * y % TWO64
  }

  function Add64(x: nat, y: nat): nat {
    (x + y) % TWO64
  }

  /** `x >> n`. */
  function Shr(x: nat, n: nat): nat {
    Quotient(x, Pow2(n))
  }

  /** What calibrate_cpu_clock leaves in the static variables. */
  datatype Params = Params(cpm: nat, shift: nat, mult: nat, blockShift: nat, mask: nat, blockNsecs: nat)

  /** `n` is the position of the highest one bit of `x`. */
  predicate HighBit(x: nat, n: nat) {
    Pow2(n) <= x < Pow2(n + 1)
  }

  /** The parameters that a calibration is meant to find: a shift of 22 bits, the largest
      multiplier that is not too fast, and the largest block that fits in an hour. */
  predicate Calibrated(p: Params) {
    && Plausible(p.cpm)
    && p.shift == 22
    && p.mult == Pow2(22) * 1000000 / p.cpm
    && HighBit(MAX_CLOCK_MSEC * p.cpm, p.blockShift)
    && p.mask == Pow2(p.blockShift) - 1
    && p.blockNsecs == Pow2(p.blockShift) * p.mult / Pow2(22)
  }

  // ----- calibration

  lemma OneHighBit(x: nat, n: nat, m: nat)
    requires HighBit(x, n) && HighBit(x, m)
    ensures n == m
  {
    if n < m {
      Pow2Mono(n + 1, m);
    } else if m < n {
      Pow2Mono(m + 1, n);
    }
  }

  lemma HalveStep(p: nat, tmp: nat, x: nat)
    requires p * tmp <= x < p * (tmp + 1)
    ensures (2 * p) * (tmp / 2) <= x < (2 * p) * (tmp / 2 + 1)
  {
    var h := tmp / 2;
    assert (2 * p) * h == p * (2 * h) && (2 * p) * (h + 1) == p * (2 * h + 2);
    MulLe(2 * h, tmp, p);
    MulLe(tmp + 1, 2 * h + 2, p);
  }

  /** The `while (tmp > 1)` loops: count the halvings. */
  method CountHalvings(x: nat) returns (n: nat)
    ensures x > 0 ==> HighBit(x, n)
    ensures x == 0 ==> n == 0
  {
    var tmp := x;
    n := 0;
    while tmp > 1
      invariant Pow2(n) * tmp <= x < Pow2(n) * (tmp + 1)
      invariant x > 0 ==> tmp > 0
      invariant x == 0 ==> n == 0
    {
      HalveStep(Pow2(n), tmp, x);
      tmp := tmp / 2;
      n := n + 1;
    }
  }

  lemma {:induction false} OrNextBit(i: nat)
    ensures Or(Pow2(i) - 1, Pow2(i)) == Pow2(i + 1) - 1
  {
    if i > 0 {
      var q := Pow2(i - 1);
      OrNextBit(i - 1);
      assert (2 * q - 1) / 2 == q - 1 && (2 * q) / 2 == q;
    }
  }

  /** The loop that sets the low `n` bits one at a time. */
  method LowBits(n: nat) returns (mask: nat)
    ensures mask == Pow2(n) - 1
  {
    mask := 0;
    var i := 0;
    while i < n
      invariant i <= n && mask == Pow2(i) - 1
    {
      OrNextBit(i);
      mask := Or(mask, Pow2(i));
      i := i + 1;
    }
  }

  /** What is shifted down to find clock_shift has its highest bit at 22, whatever the speed of
      the clock. */
  lemma ShiftIs22(cpm: nat, maxMult: nat)
    requires Plausible(cpm) && maxMult == (TWO64 - 1) / (MAX_CLOCK_MSEC * cpm)
    ensures maxMult * cpm < TWO64
    ensures HighBit(maxMult * cpm / 1000000, 22)
  {
    var y := maxMult * cpm;
    DivBounds(TWO64 - 1, MAX_CLOCK_MSEC * cpm);
    assert maxMult * (MAX_CLOCK_MSEC * cpm) == MAX_CLOCK_MSEC * y;
    assert MAX_CLOCK_MSEC * y <= TWO64 - 1 < MAX_CLOCK_MSEC * y + MAX_CLOCK_MSEC * cpm;
    Pow2Values();
    assert Pow2(23) == 8388608;
  }

  lemma MultBounds(cpm: nat, mult: nat)
    requires Plausible(cpm) && mult == Pow2(22) * 1000000 / cpm
    ensures mult * cpm <= Pow2(22) * 1000000 < mult * cpm + cpm
    ensures 0 < mult <= 4194304000000
  {
    Pow2Values();
    DivBounds(4194304000000, cpm);
    MulLe(1, cpm, mult);
    if mult == 0 {
      assert false;
    }
  }

  /** A whole block times the multiplier still fits 64 bits. */
  lemma BlockFits(cpm: nat, mult: nat, block: nat)
    requires Plausible(cpm) && mult == Pow2(22) * 1000000 / cpm
    requires block <= MAX_CLOCK_MSEC * cpm
    ensures block * mult < TWO64
  {
    MultBounds(cpm, mult);
    Pow2Values();
    MulLe(block, MAX_CLOCK_MSEC * cpm, mult);
    assert (MAX_CLOCK_MSEC * cpm) * mult == MAX_CLOCK_MSEC * (mult * cpm);
  }

  lemma Mul64Exact(x: nat, y: nat)
    requires x * y < TWO64
    ensures Mul64(x, y) == x * y
  {
  }

  lemma TicksFit(cpm: nat)
    requires Plausible(cpm)
    ensures Mul64(MAX_CLOCK_MSEC, cpm) == MAX_CLOCK_MSEC * cpm > 0
  {
  }

  /** The search for clock_shift. */
  method FindShift(cpm: nat, maxTicks: nat) returns (shift: nat)
    requires Plausible(cpm) && maxTicks == MAX_CLOCK_MSEC * cpm
    ensures shift == 22
  {
    var maxMult := (TWO64 - 1) / maxTicks;
    ShiftIs22(cpm, maxMult);
    Mul64Exact(maxMult, cpm);
    shift := CountHalvings(Mul64(maxMult, cpm) / 1000000);
    OneHighBit(maxMult * cpm / 1000000, shift, 22);
  }

  method FindMult(cpm: nat, shift: nat) returns (mult: nat)
    requires Plausible(cpm) && shift == 22
    ensures mult == Pow2(22) * 1000000 / cpm
  {
    Pow2Values();
    mult := Mul64(Pow2(shift), 1000000) / cpm;
  }

  method BlockTime(mult: nat, shift: nat, block: nat) returns (nsecs: nat)
    requires block * mult < TWO64
    ensures nsecs == Shr(block * mult, shift)
  {
    var product := Mul64(block, mult);
    assert product == block * mult by {
      Mul64Exact(block, mult);
    }
    nsecs := Shr(product, shift);
  }

  // ----- conversion

  /** `t` cycles in blocks of `block`, each worth `blockNsecs`; the rest scaled by `mult / d`. */
  function Convert(block: nat, blockNsecs: nat, mult: nat, d: nat, t: nat): nat
    requires block > 0 && d > 0
  {
    t / block * blockNsecs + t % block * mult / d
  }

  /** The conversion with unbounded integers. */
  function Nsecs(p: Params, t: nat): nat {
    Convert(Pow2(p.blockShift), p.blockNsecs, p.mult, Pow2(p.shift), t)
  }

  /** The conversion as it is computed. */
  function Nsecs64(p: Params, t: nat): nat {
    Add64(Mul64(Shr(t, p.blockShift), p.blockNsecs), Shr(Mul64(And(t, p.mask), p.mult), p.shift))
  }

  /** The masked multiplication never overflows, however large the cycle count. */
  lemma MaskedProductFits(p: Params, t: nat)
    requires Calibrated(p)
    ensures And(t, p.mask) == t % Pow2(p.blockShift)
    ensures And(t, p.mask) * p.mult < TWO64
  {
    AndMask(t, p.blockShift);
    BlockFits(p.cpm, p.mult, t % Pow2(p.blockShift));
  }

  lemma FloorSum(q: nat, r: nat, k: nat, l: nat, d: nat)
    requires r < d && l < d
    ensures q + k <= (q * d + r + (k * d + l)) / d <= q + k + 1
  {
    var x := q * d + r + (k * d + l);
    Distribute(q, k, d);
    if r + l < d {
      DivModUnique(x, d, q + k, r + l);
    } else {
      Distribute(q + k, 1, d);
      DivModUnique(x, d, q + k + 1, r + l - d);
    }
  }

  /** One more addend moves a rounded-down quotient by its own quotient, or by one more. */
  lemma FloorStep(x: nat, a: nat, d: nat)
    requires d > 0
    ensures x / d + a / d <= (x + a) / d <= x / d + a / d + 1
  {
    DivBounds(x, d);
    DivBounds(a, d);
    var q, k := x / d, a / d;
    FloorSum(q, x - q * d, k, a - k * d, d);
  }

  /** The position of the next cycle: one further in the block, or the start of the next. */
  lemma NextCycle(t: nat, block: nat)
    requires block > 0
    ensures t % block + 1 < block ==> (t + 1) / block == t / block && (t + 1) % block == t % block + 1
    ensures t % block + 1 == block ==> (t + 1) / block == t / block + 1 && (t + 1) % block == 0
  {
    var q, r := t / block, t % block;
    if r + 1 < block {
      DivModUnique(t + 1, block, q, r + 1);
    } else {
      assert (q + 1) * block == q * block + block;
      DivModUnique(t + 1, block, q + 1, 0);
    }
  }

  lemma ZeroDiv(mult: nat, d: nat)
    requires d > 0
    ensures 0 * mult / d == 0
  {
  }

  /** The next cycle, written without divisions of the time. */
  lemma ConvertNext(block: nat, blockNsecs: nat, mult: nat, d: nat, t: nat)
    requires block > 0 && d > 0 && blockNsecs == block * mult / d
    ensures Convert(block, blockNsecs, mult, d, t + 1)
         == t / block * blockNsecs + (t % block + 1) * mult / d
  {
    NextCycle(t, block);
    if t % block + 1 == block {
      Distribute(t / block, 1, blockNsecs);
      ZeroDiv(mult, d);
    }
  }

  lemma ConvertStep(block: nat, blockNsecs: nat, mult: nat, d: nat, t: nat)
    requires block > 0 && d > 0 && blockNsecs == block * mult / d
    ensures var n, n' := Convert(block, blockNsecs, mult, d, t), Convert(block, blockNsecs, mult, d, t + 1);
      n + mult / d <= n' <= n + mult / d + 1
  {
    ConvertNext(block, blockNsecs, mult, d, t);
    var r := t % block;
    Distribute(r, 1, mult);
    FloorStep(r * mult, mult, d);
  }

  /** Each cycle adds the multiplier's whole nanoseconds, or one more, inside a block and across
      its end alike. */
  lemma CycleStep(p: Params, t: nat)
    requires Calibrated(p)
    ensures Nsecs(p, t) + Shr(p.mult, 22) <= Nsecs(p, t + 1) <= Nsecs(p, t) + Shr(p.mult, 22) + 1
  {
    ConvertStep(Pow2(p.blockShift), p.blockNsecs, p.mult, Pow2(p.shift), t);
  }

  /** Time never runs backwards. */
  lemma {:induction false} Monotone(p: Params, t: nat, u: nat)
    requires Calibrated(p) && t <= u
    ensures Nsecs(p, t) <= Nsecs(p, u)
    decreases u - t
  {
    if t < u {
      Monotone(p, t, u - 1);
      CycleStep(p, u - 1);
    }
  }

  /** `q` blocks worth `b` each and a rest worth `f`, each rounded down once. */
  lemma ScaledSum(q: nat, b: nat, block: nat, f: nat, r: nat, mult: nat, d: nat)
    requires b * d <= block * mult < b * d + d
    requires f * d <= r * mult < f * d + d
    ensures (q * b + f) * d <= (q * block + r) * mult < (q * b + f + q + 1) * d
  {
    MulLe(b * d, block * mult, q);
    MulLe(block * mult, b * d + d, q);
    assert (q * block + r) * mult == block * mult * q + r * mult;
    assert (q * b + f) * d == b * d * q + f * d;
    assert (q * b + f + q + 1) * d == (b * d + d) * q + f * d + d;
  }

  lemma ConvertScaled(block: nat, blockNsecs: nat, mult: nat, d: nat, t: nat)
    requires block > 0 && d > 0 && blockNsecs == block * mult / d
    ensures Convert(block, blockNsecs, mult, d, t) * d <= t * mult
    ensures t * mult < (Convert(block, blockNsecs, mult, d, t) + t / block + 1) * d
  {
    var q, r := t / block, t % block;
    assert q * block + r == t;
    DivBounds(block * mult, d);
    DivBounds(r * mult, d);
    ScaledSum(q, blockNsecs, block, r * mult / d, r, mult, d);
  }

  /** The clock never runs ahead of the cycle counter. */
  lemma NeverAhead(p: Params, t: nat)
    requires Calibrated(p)
    ensures Nsecs(p, t) * p.cpm <= t * 1000000
  {
    ConvertScaled(Pow2(p.blockShift), p.blockNsecs, p.mult, Pow2(p.shift), t);
    MultBounds(p.cpm, p.mult);
    AheadArith(Nsecs(p, t), t, p.cpm, p.mult, Pow2(p.shift));
  }

  lemma AheadArith(n: nat, t: nat, cpm: nat, mult: nat, d: nat)
    requires d > 0 && n * d <= t * mult && mult * cpm <= d * 1000000
    ensures n * cpm <= t * 1000000
  {
    MulLe(n * d, t * mult, cpm);
    MulLe(mult * cpm, d * 1000000, t);
    assert n * d * cpm == (n * cpm) * d;
    assert t * mult * cpm == mult * cpm * t;
    assert d * 1000000 * t == (t * 1000000) * d;
    Cancel(n * cpm, t * 1000000, d);
  }

  lemma Cancel(a: int, b: int, d: int)
    requires d > 0 && a * d <= b * d
    ensures a <= b
  {
    Distribute(b, 1, d);
    if a > b {
      MulLe(b + 1, a, d);
      assert false;
    }
  }

  lemma LagArith(n: nat, t: nat, q: nat, cpm: nat, mult: nat, d: nat)
    requires d > 0 && cpm > 0
    requires t * mult < (n + q + 1) * d && d * 1000000 < mult * cpm + cpm
    ensures (t * 1000000) * d < (n + q + 1) * d * cpm + t * cpm
  {
    MulLe(d * 1000000, mult * cpm + cpm, t);
    assert (mult * cpm + cpm) * t == t * mult * cpm + t * cpm;
    assert d * 1000000 * t == (t * 1000000) * d;
    MulLe(t * mult + 1, (n + q + 1) * d, cpm);
    assert (t * mult + 1) * cpm == t * mult * cpm + cpm;
  }

  lemma RealLag(x: nat, cpm: nat, k: nat, t: nat, d: nat)
    requires cpm > 0 && d > 0 && x * d < k * d * cpm + t * cpm
    ensures x as real / cpm as real < k as real + t as real / d as real
  {
    var c, e := cpm as real, d as real;
    var u, v := x as real / c, t as real / e;
    assert u * c == x as real && v * e == t as real;
    assert (x * d) as real == (u * c) * e;
    assert (k * d * cpm + t * cpm) as real == (k as real) * e * c + (v * e) * c;
    assert (u * c) * e == u * (c * e) && (k as real) * e * c + (v * e) * c == (k as real + v) * (c * e);
    RealCancel(u, k as real + v, c * e);
  }

  lemma RealCancel(x: real, y: real, d: real)
    requires d > 0.0 && x * d < y * d
    ensures x < y
  {
    assert (x - y) * d == x * d - y * d;
    if x >= y {
      assert false;
    }
  }

  lemma Lag(p: Params, t: nat)
    requires Calibrated(p)
    ensures (t * 1000000) * Pow2(22)
          < (Nsecs(p, t) + Shr(t, p.blockShift) + 1) * Pow2(22) * p.cpm + t * p.cpm
  {
    ConvertScaled(Pow2(p.blockShift), p.blockNsecs, p.mult, Pow2(p.shift), t);
    MultBounds(p.cpm, p.mult);
    LagArith(Nsecs(p, t), t, Shr(t, p.blockShift), p.cpm, p.mult, Pow2(p.shift));
  }

  /** It lags the exact value `t * 10^6 / cycles_per_msec` by less than one nanosecond, one more
      for each whole block and one more for each 2^22 cycles. */
  lemma LagBound(p: Params, t: nat)
    requires Calibrated(p)
    ensures (t * 1000000) as real / p.cpm as real
          < (Nsecs(p, t) + Shr(t, p.blockShift) + 1) as real + t as real / Pow2(22) as real
  {
    Lag(p, t);
    RealLag(t * 1000000, p.cpm, Nsecs(p, t) + Shr(t, p.blockShift) + 1, t, Pow2(22));
  }

  lemma SmallParts(q: nat, b: nat, f: nat)
    requires q * b + f < TWO64
    ensures Add64(Mul64(q, b), f) == q * b + f
  {
    MulLe(0, q, b);
    Mul64Exact(q, b);
  }

  /** As long as the time in nanoseconds fits 64 bits, the code computes it without wrapping. */
  lemma NoWrap(p: Params, t: nat)
    requires Calibrated(p) && Nsecs(p, t) < TWO64
    ensures Nsecs64(p, t) == Nsecs(p, t)
  {
    var product := And(t, p.mask) * p.mult;
    assert Shr(Mul64(And(t, p.mask), p.mult), p.shift) == t % Pow2(p.blockShift) * p.mult / Pow2(p.shift) by {
      MaskedProductFits(p, t);
      Mul64Exact(And(t, p.mask), p.mult);
    }
    SmallParts(Shr(t, p.blockShift), p.blockNsecs, t % Pow2(p.blockShift) * p.mult / Pow2(p.shift));
  }

  /** A caller can tell: the exact time in nanoseconds is below 2^64. */
  lemma FitsInTime(p: Params, t: nat)
    requires Calibrated(p) && t * 1000000 < p.cpm * TWO64
    ensures Nsecs(p, t) < TWO64
  {
    NeverAhead(p, t);
    if Nsecs(p, t) >= TWO64 {
      MulLe(TWO64, Nsecs(p, t), p.cpm);
      assert false;
    }
  }

  /** Two readings in order, the later one within range: the computed times are in order. */
  lemma ReadingsInOrder(p: Params, t: nat, u: nat)
    requires Calibrated(p) && t <= u && u * 1000000 < p.cpm * TWO64
    ensures Nsecs64(p, t) <= Nsecs64(p, u)
    ensures Nsecs64(p, u) * p.cpm <= u * 1000000
  {
    FitsInTime(p, u);
    Monotone(p, t, u);
    NoWrap(p, t);
    NoWrap(p, u);
    NeverAhead(p, u);
  }

  /** The static variables of gettime.c. */
  class CpuClock {
    var cyclesPerMsec: nat
    var clockShift: nat
    var clockMult: nat
    var maxCyclesShift: nat
    var maxCyclesMask: nat
    var nsecsForMaxCycles: nat

    constructor ()
    {
      cyclesPerMsec, clockShift, clockMult, maxCyclesShift, maxCyclesMask, nsecsForMaxCycles := 0, 0, 0, 0, 0, 0;
    }

    function View(): Params
      reads this
    {
      Params(cyclesPerMsec, clockShift, clockMult, maxCyclesShift, maxCyclesMask, nsecsForMaxCycles)
    }

    /** calibrate_cpu_clock from the averaged cycles per millisecond on. */
    method Calibrate(avg: nat)
      requires Plausible(avg)
      modifies this
      ensures View().cpm == avg && Calibrated(View())
    {
      cyclesPerMsec := avg;
      TicksFit(avg);
      var maxTicks := Mul64(MAX_CLOCK_MSEC, cyclesPerMsec);
      clockShift := FindShift(cyclesPerMsec, maxTicks);
      clockMult := FindMult(cyclesPerMsec, clockShift);
      maxCyclesShift := CountHalvings(maxTicks);
      BlockFits(cyclesPerMsec, clockMult, Pow2(maxCyclesShift));
      nsecsForMaxCycles := BlockTime(clockMult, clockShift, Pow2(maxCyclesShift));
      maxCyclesMask := LowBits(maxCyclesShift);
    }
  
    /** The CS_CPUCLOCK case of __fio_gettime: a timespec for the cycles since `start`. */
    method GetTime(cycles: nat, start: nat) returns (sec: nat, nsec: nat)
      requires Calibrated(View()) && cycles < TWO64 && start < TWO64
      ensures nsec < 1000000000
      ensures sec * 1000000000 + nsec == Nsecs64(View(), (cycles - start) % TWO64)
    {
      var t := (cycles - start) % TWO64;
      var multiples := Shr(t, maxCyclesShift);
      var nsecs := Mul64(multiples, nsecsForMaxCycles);
      nsecs := Add64(nsecs, Shr(Mul64(And(t, maxCyclesMask), clockMult), clockShift));
      sec, nsec := nsecs / 1000000000, nsecs % 1000000000;
    }
  }
}
