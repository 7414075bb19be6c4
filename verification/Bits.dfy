/** C's bitwise operators on unsigned integers, as functions on naturals, and the facts
    about masks and bit smearing that the ring, the FIFO and the clock rely on. */
module Bits {

  const TWO32: nat := 0x1_0000_0000
  const TWO64: nat := 0x1_0000_0000_0000_0000

  function Pow2(k: nat): (r: nat)
    ensures r > 0
  {
    if k == 0 then 1 else 2 * Pow2(k - 1)
  }

  /** `x & y`. */
  function And(x: nat, y: nat): nat {
    if x == 0 || y == 0 then 0 else 2 * And(x / 2, y / 2) + (x % 2) * (y % 2)
  }

  /** `x | y`. */
  function Or(x: nat, y: nat): nat {
    if x == 0 then y else if y == 0 then x
    else 2 * Or(x / 2, y / 2) + (if x % 2 == 1 || y % 2 == 1 then 1 else 0)
  }

  ghost predicate IsPow2(n: nat) {
    exists k: nat :: n == Pow2(k)
  }

  // ----- division and powers

  function Quotient(x: nat, d: nat): nat
    requires d > 0
  {
    x / d
  }

  lemma DivModUnique(x: nat, d: nat, q: nat, r: nat)
    requires r < d && x == q * d + r
    ensures x / d == q && x % d == r
  {
    var q', r' := x / d, x % d;
    assert (q - q') * d == r' - r;
    if q > q' {
      assert (q - q') * d >= d by { MulLe(1, q - q', d); }
    } else if q < q' {
      assert (q' - q) * d >= d by { MulLe(1, q' - q, d); }
    }
  }

  lemma MulLe(a: int, b: int, c: int)
    requires a <= b && c >= 0
    ensures a * c <= b * c
  {
    assert (b - a) * c >= 0;
  }

  lemma MulSub(a: int, b: int, c: int)
    ensures (a - b) * c == a * c - b * c
  {
  }

  lemma Distribute(a: int, b: int, c: int)
    ensures (a + b) * c == a * c + b * c
  {
  }

  lemma DivBounds(x: nat, d: nat)
    requires d > 0
    ensures x / d * d <= x < x / d * d + d
  {
  }

  lemma Pow2Add(a: nat, b: nat)
    ensures Pow2(a + b) == Pow2(a) * Pow2(b)
  {
    if b > 0 {
      Pow2Add(a, b - 1);
      assert Pow2(a) * Pow2(b) == 2 * (Pow2(a) * Pow2(b - 1));
    }
  }

  lemma Pow2Mono(a: nat, b: nat)
    requires a <= b
    ensures Pow2(a) <= Pow2(b)
    ensures a < b ==> 2 * Pow2(a) <= Pow2(b)
  {
    if a < b {
      Pow2Mono(a, b - 1);
    }
  }

  lemma Pow2Values()
    ensures Pow2(16) == 0x1_0000 && Pow2(22) == 4194304 && Pow2(31) == 0x8000_0000
    ensures Pow2(32) == TWO32 && Pow2(64) == TWO64
  {
    assert Pow2(8) == 256;
    assert Pow2(16) == 0x1_0000;
    Pow2Add(16, 6);
    assert Pow2(6) == 64;
    Pow2Add(16, 16);
    Pow2Add(32, 32);
  }

  /** A power of two no larger than 2^32 divides 2^32. */
  lemma Pow2Divides(n: nat, k: nat)
    requires n == Pow2(k) && k <= 32
    ensures TWO32 % n == 0 && TWO32 == Pow2(32 - k) * n
  {
    Pow2Values();
    Pow2Add(32 - k, k);
    DivModUnique(TWO32, n, Pow2(32 - k), 0);
  }

  /** Reducing modulo a multiple of `n` first does not change the residue modulo `n`. */
  lemma ModMod(x: int, n: nat, m: nat)
    requires n > 0 && m > 0
    ensures n * m > 0 && (x % (m * n)) % n == x % n
  {
    var q, r := x / (m * n), x % (m * n);
    assert x == q * (m * n) + r;
    assert x == (q * m) * n + r;
    ModShift(r, q * m, n);
  }

  lemma ModShift(r: int, q: int, n: nat)
    requires n > 0
    ensures (q * n + r) % n == r % n
  {
    var a, b := r / n, r % n;
    var c, d := (q * n + r) / n, (q * n + r) % n;
    assert (q + a - c) * n == d - b;
    if q + a - c > 0 {
      MulLe(1, q + a - c, n);
    } else if q + a - c < 0 {
      MulLe(q + a - c, -1, n);
    }
  }

  // ----- masks

  lemma HalfMod(x: nat, p: nat)
    requires p > 0
    ensures 0 < 2 * p && x % (2 * p) == 2 * ((x / 2) % p) + x % 2
  {
    var h, b := x / 2, x % 2;
    var q, r := h / p, h % p;
    assert h == q * p + r;
    assert q * (2 * p) == 2 * (q * p);
    DivModUnique(x, 2 * p, q, 2 * r + b);
  }

  lemma AndOdd(x: nat, m: nat)
    ensures And(x, 2 * m + 1) == 2 * And(x / 2, m) + x % 2
  {
    assert (2 * m + 1) / 2 == m && (2 * m + 1) % 2 == 1;
  }

  /** Masking with a power of two minus one is reduction modulo that power. */
  lemma {:induction false} AndMask(x: nat, k: nat)
    ensures And(x, Pow2(k) - 1) == x % Pow2(k)
  {
    if k > 0 {
      var m := Pow2(k - 1) - 1;
      AndMask(x / 2, k - 1);
      AndOdd(x, m);
      HalfMod(x, m + 1);
      assert Pow2(k) == 2 * (m + 1) && Pow2(k) - 1 == 2 * m + 1;
    }
  }

  /** The masked increment of an index wraps to the start at the power of two. */
  lemma MaskedIncrement(i: nat, m: nat)
    requires IsPow2(m) && i < m
    ensures And(i + 1, m - 1) == if i + 1 == m then 0 else i + 1
  {
    var k: nat :| m == Pow2(k);
    AndMask(i + 1, k);
    if i + 1 == m {
      DivModUnique(i + 1, m, 1, 0);
    } else {
      DivModUnique(i + 1, m, 0, i + 1);
    }
  }

  lemma {:induction false} AndSelf(x: nat)
    ensures And(x, x) == x
  {
    if x > 0 {
      AndSelf(x / 2);
      assert And(x, x) == x % 2 + 2 * (x / 2);
    }
  }

  /** The `n & (n - 1)` test recognises only powers of two. */
  lemma {:induction false} ClearLowestBit(n: nat)
    requires n > 0 && And(n, n - 1) == 0
    ensures IsPow2(n)
  {
    if n == 1 {
      assert n == Pow2(0);
    } else if n % 2 == 1 {
      assert (n - 1) / 2 == n / 2;
      AndSelf(n / 2);
    } else {
      var h := n / 2;
      assert (n - 1) / 2 == h - 1;
      ClearLowestBit(h);
      var k: nat :| h == Pow2(k);
      assert n == Pow2(k + 1);
    }
  }

  // ----- smearing the top bit downwards

  lemma {:induction false} OrBounds(x: nat, y: nat, j: nat)
    requires x < Pow2(j) && y < Pow2(j)
    ensures x <= Or(x, y) < Pow2(j) && y <= Or(x, y)
  {
    if x != 0 && y != 0 {
      OrBounds(x / 2, y / 2, j - 1);
    }
  }

  lemma {:induction false} OrHigh(h: nat, r: nat, y: nat, j: nat)
    requires r < Pow2(j) && y < Pow2(j)
    ensures Or(h * Pow2(j) + r, y) == h * Pow2(j) + Or(r, y)
  {
    var p := Pow2(j);
    if j > 0 && y > 0 {
      var q := Pow2(j - 1);
      var x := h * p + r;
      assert h * p == 2 * (h * q);
      assert x / 2 == h * q + r / 2 && x % 2 == r % 2;
      OrHigh(h, r / 2, y / 2, j - 1);
      if x != 0 && r == 0 {
        assert Or(0, y / 2) == y / 2;
      }
    }
  }

  /** `x` fits in `n` bits and its top `m` bits (of those `n`) are all one. */
  ghost predicate TopOnes(x: nat, n: nat, m: nat) {
    m <= n && Pow2(n) - Pow2(n - m) <= x < Pow2(n)
  }

  function Min(a: nat, b: nat): nat {
    if a < b then a else b
  }

  lemma DivLower(x: nat, s: nat, bound: nat)
    requires s > 0 && x >= bound * s
    ensures x / s >= bound
  {
    if x / s < bound {
      MulLe(x / s + 1, bound, s);
    }
  }

  lemma DivUpper(x: nat, s: nat, bound: nat)
    requires s > 0 && x < bound * s
    ensures x / s < bound
  {
    if x / s >= bound {
      MulLe(bound, x / s, s);
    }
  }

  /** Shifting down by `m` a number whose top `m` bits are ones: how large the result is. */
  lemma ShiftedRange(x: nat, n: nat, m: nat)
    requires m >= 1 && TopOnes(x, n, m)
    ensures x / Pow2(m) < Pow2(n - m)
    ensures x / Pow2(m) >= Pow2(n - m) - Pow2(n - Min(2 * m, n))
  {
    var low, s := Pow2(n - m), Pow2(m);
    Pow2Add(n - m, m);
    assert Pow2(n) == low * s;
    DivUpper(x, s, low);
    if 2 * m <= n {
      var lower := Pow2(n - 2 * m);
      Pow2Add(n - 2 * m, m);
      Pow2Mono(n - 2 * m, n - m);
      MulSub(low, lower, s);
      DivLower(x, s, low - lower);
    } else {
      Pow2Mono(n - m, m);
      MulSub(low, 1, s);
      DivLower(x, s, low - 1);
    }
  }

  lemma OrUnderHigh(x: nat, h: nat, y: nat, j: nat)
    requires h * Pow2(j) <= x < h * Pow2(j) + Pow2(j) && y < Pow2(j)
    ensures h * Pow2(j) + y <= Or(x, y) < h * Pow2(j) + Pow2(j)
  {
    var r := x - h * Pow2(j);
    OrHigh(h, r, y, j);
    OrBounds(r, y, j);
  }

  lemma TopOnesOr(x: nat, y: nat, n: nat, m: nat)
    requires TopOnes(x, n, m)
    requires Pow2(n - m) - Pow2(n - Min(2 * m, n)) <= y < Pow2(n - m)
    ensures TopOnes(Or(x, y), n, Min(2 * m, n))
  {
    Pow2Add(m, n - m);
    var h := Pow2(m) - 1;
    assert h * Pow2(n - m) == Pow2(n) - Pow2(n - m) by {
      MulSub(Pow2(m), 1, Pow2(n - m));
    }
    OrUnderHigh(x, h, y, n - m);
  }

  /** One `x |= x >> m` step doubles the run of ones at the top. */
  lemma SmearStep(x: nat, y: nat, n: nat, m: nat)
    requires m >= 1 && TopOnes(x, n, m) && y == x / Pow2(m)
    ensures TopOnes(Or(x, y), n, Min(2 * m, n))
  {
    ShiftedRange(x, n, m);
    TopOnesOr(x, y, n, m);
  }

  /** Position just above the highest one bit of `x`. */
  lemma {:induction false} BitLength(x: nat) returns (n: nat)
    requires x > 0
    ensures n > 0 && Pow2(n - 1) <= x < Pow2(n)
  {
    if x == 1 {
      n := 1;
    } else {
      var k := BitLength(x / 2);
      n := k + 1;
    }
  }
}
