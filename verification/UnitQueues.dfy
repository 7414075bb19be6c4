/** The two containers that hold idle io units (io_u_queue.h, io_u_queue.c): the stack
    used as freelist and as the list of all units, and the power-of-two ring of requeued
    units.  A unit is named by its index; a NULL slot of the stack is None. */
module UnitQueues {
  import opened Bits
  import opened Options

  type UnitId = nat

  /** `r` is the least power of two that is at least `n`. */
  ghost predicate LeastPow2(n: nat, r: nat) {
    IsPow2(r) && n <= r && forall k: nat :: n <= Pow2(k) ==> r <= Pow2(k)
  }

  lemma LeastPow2Of(n: nat, k: nat)
    requires n <= Pow2(k) && (k > 0 ==> Pow2(k - 1) < n)
    ensures LeastPow2(n, Pow2(k))
  {
    forall j: nat | n <= Pow2(j)
      ensures Pow2(k) <= Pow2(j)
    {
      if j < k { Pow2Mono(j, k - 1); } else { Pow2Mono(k, j); }
    }
  }

  lemma LeastPow2IsPow2(n: nat)
    requires IsPow2(n)
    ensures LeastPow2(n, n)
  {
    var k: nat :| n == Pow2(k);
    if k > 0 { Pow2Mono(k - 1, k); }
    LeastPow2Of(n, k);
  }

  /** One shift of the sequence, whether or not all `n` bits are already ones. */
  lemma SmearShift(x: nat, y: nat, n: nat, m: nat)
    requires m >= 1 && TopOnes(x, n, Min(m, n)) && y == x / Pow2(m)
    ensures TopOnes(Or(x, y), n, Min(2 * m, n))
  {
    if m <= n {
      SmearStep(x, y, n, m);
    } else {
      // a number that is already all ones is not changed by or-ing in a smaller one
      assert y <= x by {
        if y > x {
          MulLe(1, Pow2(m), y);
        }
      }
      OrBounds(x, y, n);
    }
  }

  lemma ShiftFactors()
    ensures Pow2(1) == 2 && Pow2(2) == 4 && Pow2(4) == 16 && Pow2(8) == 256 && Pow2(16) == 0x1_0000
  {
    Pow2Values();
  }

  lemma BitLength32(x: nat) returns (n: nat)
    requires 0 < x < TWO32
    ensures 0 < n <= 32 && Pow2(n - 1) <= x < Pow2(n)
  {
    n := BitLength(x);
    Pow2Values();
    if n > 32 { Pow2Mono(32, n - 1); }
  }

  /** Five or-shifts fill every bit below the highest one. */
  method SmearRight(x: nat) returns (r: nat)
    requires 0 < x < TWO32
    ensures exists n: nat :: n > 0 && r == Pow2(n) - 1 && Pow2(n - 1) <= x < Pow2(n)
  {
    ghost var n := BitLength32(x);
    ShiftFactors();
    r := x;
    SmearShift(r, r / 2, n, 1);
    r := Or(r, r / 2);
    SmearShift(r, r / 4, n, 2);
    r := Or(r, r / 4);
    SmearShift(r, r / 16, n, 4);
    r := Or(r, r / 16);
    SmearShift(r, r / 256, n, 8);
    r := Or(r, r / 256);
    SmearShift(r, r / 0x1_0000, n, 16);
    r := Or(r, r / 0x1_0000);
    assert Min(2 * 16, n) == n && Pow2(n - n) == 1;
  }

  /** The round-up branch of io_u_rinit, before the final wrap to 32 bits. */
  method RoundUp(m: nat) returns (r: nat)
    requires 1 < m < TWO32
    ensures LeastPow2(m, r)
  {
    r := SmearRight(m - 1);
    ghost var n: nat :| n > 0 && r == Pow2(n) - 1 && Pow2(n - 1) <= m - 1 < Pow2(n);
    LeastPow2Of(m, n);
    r := r + 1;
  }

  lemma LeastPow2Of32()
    ensures LeastPow2(TWO32, TWO32)
  {
    Pow2Values();
    assert IsPow2(TWO32) by { assert TWO32 == Pow2(32); }
    LeastPow2IsPow2(TWO32);
  }

  /** The test `max & (max - 1)` and the rounding it guards, for a nonzero `max`. */
  method RoundIfNeeded(m: nat) returns (r: nat, ghost p: nat)
    requires 0 < m < TWO32
    ensures LeastPow2(m, p) && r == p % TWO32
  {
    var below := m - 1;
    if And(m, below) != 0 {
      r := RoundUpFrom(m);
      p := r;
      r := r % TWO32;
    } else {
      PowerOfTwoItself(m);
      r, p := m, m;
    }
  }

  /** The ring size computed by io_u_rinit, in 32-bit arithmetic: the least power of two
      that is at least `nr + 1`, which is 0 when that power is 2^32. */
  method RingSize(nr: nat) returns (max: nat)
    requires nr < TWO32
    ensures exists p: nat :: LeastPow2(nr + 1, p) && max == p % TWO32
  {
    max := (nr + 1) % TWO32;
    if max == 0 {
      // 0 & (0 - 1) is 0, so the round-up is skipped
      LeastPow2Of32();
    } else {
      ghost var p: nat;
      max, p := RoundIfNeeded(max);
      assert LeastPow2(nr + 1, p);
    }
  }

  /** A number that shares a bit with its predecessor is not one. */
  method RoundUpFrom(m: nat) returns (r: nat)
    requires 0 < m < TWO32 && And(m, m - 1) != 0
    ensures LeastPow2(m, r)
  {
    assert And(1, 0) == 0;
    r := RoundUp(m);
  }

  lemma PowerOfTwoItself(m: nat)
    requires m > 0 && And(m, m - 1) == 0
    ensures LeastPow2(m, m)
  {
    ClearLowestBit(m);
    LeastPow2IsPow2(m);
  }

  lemma LeastPow2Fits(n: nat, p: nat)
    requires n <= TWO32 / 2 && LeastPow2(n, p)
    ensures 0 < p <= TWO32 / 2 && p % TWO32 == p
  {
    Pow2Values();
    assert p <= Pow2(31);
    var k: nat :| p == Pow2(k);
  }

  // ----- the ring as a sequence

  function RingLen(head: nat, tail: nat, max: nat): nat
    requires head < max && tail < max
  {
    if tail <= head then head - tail else head + max - tail
  }

  function RingSlot(tail: nat, i: nat, max: nat): (k: nat)
    requires tail < max && i < max
    ensures k < max
  {
    if tail + i < max then tail + i else tail + i - max
  }

  /** The elements from tail to head, oldest first. */
  function RingSeq(s: seq<UnitId>, head: nat, tail: nat): (r: seq<UnitId>)
    requires head < |s| && tail < |s|
    ensures |r| == RingLen(head, tail, |s|)
  {
    seq(RingLen(head, tail, |s|), i requires 0 <= i < RingLen(head, tail, |s|) => s[RingSlot(tail, i, |s|)])
  }

  function NextIndex(i: nat, max: nat): (r: nat)
    requires i < max
    ensures r < max
  {
    if i + 1 == max then 0 else i + 1
  }

  lemma RingSeqPush(s: seq<UnitId>, head: nat, tail: nat, u: UnitId)
    requires head < |s| && tail < |s| && RingLen(head, tail, |s|) < |s| - 1
    ensures RingSeq(s[head := u], NextIndex(head, |s|), tail) == RingSeq(s, head, tail) + [u]
  {
  }

  lemma RingSeqPop(s: seq<UnitId>, head: nat, tail: nat)
    requires head < |s| && tail < |s| && head != tail
    ensures RingSeq(s, head, tail) == [s[tail]] + RingSeq(s, head, NextIndex(tail, |s|))
  {
  }

  /** io_u_queue: a stack of bounded depth. */
  class UnitStack {
    const ious: array<Option<UnitId>>
    var nr: nat
    const max: nat

    ghost predicate Valid()
      reads this, ious
    {
      ious.Length == max && nr <= max && forall i :: 0 <= i < nr ==> ious[i].Some?
    }

    ghost function Contents(): (s: seq<UnitId>)
      requires Valid()
      reads this, ious
      ensures |s| == nr
    {
      seq(nr, i requires 0 <= i < nr && Valid() reads this, ious => ious[i].value)
    }

    constructor QInit(count: nat)
      ensures Valid() && Contents() == [] && max == count && fresh(ious)
    {
      ious := new Option<UnitId>[count](i => None);
      nr := 0;
      max := count;
    }

    method QPop() returns (u: Option<UnitId>)
      requires Valid()
      modifies this`nr, ious
      ensures Valid()
      ensures old(Contents()) == [] ==> u == None && Contents() == []
      ensures old(Contents()) != [] ==> u.Some? && old(Contents()) == Contents() + [u.value]
    {
      if nr > 0 {
        nr := nr - 1;
        u := ious[nr];
        ious[nr] := None;
      } else {
        u := None;
      }
    }

    /** `ok` is false where the source's `assert(0)` fires. */
    method QPush(u: UnitId) returns (ok: bool)
      requires Valid()
      modifies this`nr, ious
      ensures Valid()
      ensures ok == (|old(Contents())| < max)
      ensures Contents() == if ok then old(Contents()) + [u] else old(Contents())
    {
      ok := nr < max;
      if ok {
        ious[nr] := Some(u);
        nr := nr + 1;
      }
    }
  }

  /** io_u_ring: head and tail are kept reduced; equal means empty. */
  class UnitRing {
    const ring: array<UnitId>
    var head: nat
    var tail: nat
    const max: nat

    ghost predicate Valid()
      reads this
    {
      IsPow2(max) && max <= TWO32 / 2 && ring.Length == max && head < max && tail < max
    }

    ghost function Contents(): (s: seq<UnitId>)
      requires Valid()
      reads this, ring
    {
      RingSeq(ring[..], head, tail)
    }

    constructor RInit(nr: nat)
      requires nr < TWO32 / 2
      ensures Valid() && Contents() == [] && nr < max && LeastPow2(nr + 1, max) && fresh(ring)
    {
      var size := RingSize(nr);
      ghost var p: nat :| LeastPow2(nr + 1, p) && size == p % TWO32;
      LeastPow2Fits(nr + 1, p);
      ring := new UnitId[size](i => 0);
      head, tail := 0, 0;
      max := size;
    }

    /** Faithful below `max - 1` elements.  On a full ring the test `head + 1 != tail`, which
        compares an unmasked value, fires only when the tail is not at slot 0; otherwise the
        push succeeds and leaves a ring that looks empty. */
    method RPush(u: UnitId) returns (ok: bool)
      requires Valid()
      modifies this`head, ring
      ensures Valid() && tail == old(tail)
      ensures |old(Contents())| < max - 1 ==> ok && Contents() == old(Contents()) + [u]
      ensures |old(Contents())| == max - 1 ==> ok == (tail == 0)
      ensures |old(Contents())| == max - 1 && ok ==> Contents() == []
      ensures !ok ==> Contents() == old(Contents())
    {
      ok := head + 1 != tail;
      if ok {
        if |Contents()| < max - 1 {
          RingSeqPush(ring[..], head, tail, u);
        }
        ring[head] := u;
        MaskedIncrement(head, max);
        head := And(head + 1, max - 1);
      }
    }

    method RPop() returns (u: Option<UnitId>)
      requires Valid()
      modifies this`tail
      ensures Valid() && head == old(head)
      ensures old(Contents()) == [] ==> u == None && Contents() == []
      ensures old(Contents()) != [] ==> u.Some? && old(Contents()) == [u.value] + Contents()
    {
      if head != tail {
        u := Some(ring[tail]);
        RingSeqPop(ring[..], head, tail);
        MaskedIncrement(tail, max);
        tail := And(tail + 1, max - 1);
      } else {
        u := None;
      }
    }

    predicate REmpty()
      requires Valid()
      reads this, ring
      ensures REmpty() <==> Contents() == []
    {
      head == tail
    }
  }
}
